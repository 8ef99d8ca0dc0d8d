/** cpu_routine, run and ld_routine on the real scheduler (src/os.c, src/cpu.c). */
module Simulators {
  import opened Options
  import opened ReadyQueue
  import opened Mlq
  import opened Schedulers
  import opened CpuLoop

  /** The state the threads share, and each CPU's local variables; every method is one section. */
  class Simulator {
    const timeSlot: int
    const programs: seq<Proc>
    const sched: Scheduler
    const cpus: array<Cpu>
    var pc: map<nat, nat>
    var loaded: nat
    var freed: set<Proc>
    var done: bool

    ghost predicate Valid()
      reads this, sched, sched.Queues()
    {
      sched.Valid()
    }

    ghost function Abs(): Os
      reads this, cpus, sched, sched.Queues(), sched.Arrays()
    {
      Os(timeSlot, programs, sched.Abs(), cpus[..], pc, loaded, freed, done)
    }

    constructor (timeSlot: int, programs: seq<Proc>, ncpus: nat)
      ensures Valid() && fresh(sched) && fresh(cpus) && fresh(sched.Queues()) && fresh(sched.Arrays())
      ensures Abs() == Os(timeSlot, programs, NewSched(),
                          seq(ncpus, _ => Cpu(Top, None, 0)), map[], 0, {}, false)
    {
      this.timeSlot, this.programs := timeSlot, programs;
      sched := new Scheduler();
      cpus := new Cpu[ncpus](_ => Cpu(Top, None, 0));
      pc, loaded, freed, done := map[], 0, {}, false;
      new;
      assert cpus[..] == seq(ncpus, _ => Cpu(Top, None, 0));
    }

    /** get_proc on behalf of CPU c. */
    method FetchFor(c: nat, nobody: Mode)
      requires Valid() && c < cpus.Length
      modifies cpus, sched, sched.Queues(), sched.Arrays()
      ensures Valid() && Abs() == Fetched(old(Abs()), c, nobody)
    {
      hide Get;
      var timeLeft := cpus[c].timeLeft;
      var proc := sched.GetMlqProc();
      cpus[c] := if proc.None? then Cpu(nobody, None, timeLeft) else Cpu(Recheck, proc, timeLeft);
      assert cpus[..] == old(cpus[..])[c := cpus[c]];
    }

    /** run: the program counter moves while it is inside the program. */
    method Run(p: Proc) returns (ran: bool)
      modifies this`pc
      ensures var at := Pc(old(Abs()), p);
              ran == (at < p.size) && Abs() == old(Abs()).(pc := if ran then old(pc)[p.pid := at + 1] else old(pc))
    {
      var at := if p.pid in pc then pc[p.pid] else 0;
      if at >= p.size {
        return false;
      }
      pc := pc[p.pid := at + 1];
      ran := true;
    }

    /** finish_proc and free, or put_proc, at the top of the loop. */
    method ReleaseFrom(c: nat)
      requires Valid() && c < cpus.Length && cpus[c].mode.Top? && cpus[c].proc.Some?
      requires Pc(Abs(), cpus[c].proc.value) == cpus[c].proc.value.size || cpus[c].timeLeft == 0
      modifies this`freed, cpus, sched, sched.Queues(), sched.Arrays()
      ensures Valid() && Abs() == CpuStep(old(Abs()), c).0
    {
      hide Finish, PutBack;
      var p := cpus[c].proc.value;
      var at := if p.pid in pc then pc[p.pid] else 0;
      if at == p.size {
        sched.FinishMlqProc(p);
        freed := freed + {p};
      } else {
        sched.PutMlqProc(p);
      }
      cpus[c] := Cpu(Fetch, None, 0);
      assert cpus[..] == old(cpus[..])[c := cpus[c]];
    }

    /** One section of cpu_routine. */
    method CpuSection(c: nat)
      requires Valid() && c < cpus.Length
      modifies this, cpus, sched, sched.Queues(), sched.Arrays()
      ensures Valid() && Abs() == CpuStep(old(Abs()), c).0
    {
      hide Fetched, Finish, PutBack;
      var k := cpus[c];
      match k.mode {
        case Stopped =>
        case Fetch =>
          FetchFor(c, Recheck);
        case Top =>
          if k.proc.None? {
            FetchFor(c, Top);
          } else if (if k.proc.value.pid in pc then pc[k.proc.value.pid] else 0) == k.proc.value.size
                    || k.timeLeft == 0 {
            ReleaseFrom(c);
          } else {
            cpus[c] := k.(mode := Recheck);
            assert cpus[..] == old(cpus[..])[c := cpus[c]];
          }
        case Recheck =>
          if k.proc.None? {
            cpus[c] := k.(mode := if done then Stopped else Top);
          } else {
            var timeLeft := if k.timeLeft == 0 then timeSlot else k.timeLeft;
            var _ := Run(k.proc.value);
            cpus[c] := Cpu(Top, k.proc, timeLeft - 1);
          }
          assert cpus[..] == old(cpus[..])[c := cpus[c]];
      }
    }

    /** One round of ld_routine's loop, or the line after it. */
    method LoaderSection()
      requires Valid()
      modifies this, sched, sched.Queues(), sched.Arrays()
      ensures Valid() && Abs() == LoaderStep(old(Abs()))
    {
      hide Add;
      if loaded < |programs| {
        var p := programs[loaded];
        pc := pc[p.pid := 0];
        sched.AddMlqProc(p);
        loaded := loaded + 1;
      } else {
        done := true;
      }
    }
  }
}
