/** The CPU loops and the loader over the scheduler (src/os.c, src/cpu.c). */
module CpuLoop {
  import opened Options
  import opened Sequences
  import opened ReadyQueue
  import opened Mlq

  /** Where a CPU stands between two locked sections: at the top of its loop, between releasing
      its process and get_proc, at the recheck that follows, or past the loop. */
  datatype Mode = Top | Fetch | Recheck | Stopped

  datatype Cpu = Cpu(mode: Mode, proc: Option<Proc>, timeLeft: int)

  /** `programs` in load order; `pc` by pid; `freed` are the processes passed to finish_proc and free. */
  datatype Os = Os(timeSlot: int, programs: seq<Proc>, sched: Sched, cpus: seq<Cpu>, pc: map<nat, nat>,
                   loaded: nat, freed: set<Proc>, done: bool)

  /** What one section did that can be seen from outside. */
  datatype Event = Dispatched(cpu: nat, p: Proc) | Ran(cpu: nat, p: Proc, at: nat) | Released(cpu: nat, p: Proc)

  function Pc(o: Os, p: Proc): nat {
    if p.pid in o.pc then o.pc[p.pid] else 0
  }

  function SetCpu(o: Os, c: nat, k: Cpu): Os
    requires c < |o.cpus|
  {
    o.(cpus := o.cpus[c := k])
  }

  /** get_proc by CPU c; both calls after a release leave time_left at 0. */
  function Fetched(o: Os, c: nat, nobody: Mode): Os
    requires Valid(o.sched) && c < |o.cpus|
  {
    var (s, got) := Get(o.sched);
    var k := match got
             case Nobody => Cpu(nobody, None, o.cpus[c].timeLeft)
             case Served(p, l) => Cpu(Recheck, Some(p), o.cpus[c].timeLeft);
    SetCpu(o.(sched := s), c, k)
  }

  /** run, which past the end of the program does nothing, and the decrement. */
  function RunOne(o: Os, c: nat, p: Proc, timeLeft: int): (Os, seq<Event>)
    requires c < |o.cpus|
  {
    var at := Pc(o, p);
    var o' := SetCpu(o, c, Cpu(Top, Some(p), timeLeft - 1));
    if at >= p.size then (o', []) else (o'.(pc := o.pc[p.pid := at + 1]), [Ran(c, p, at)])
  }

  /** One section of cpu_routine; the call of next_slot that ends a turn is the timer's business. */
  function CpuStep(o: Os, c: nat): (Os, seq<Event>)
    requires Valid(o.sched) && c < |o.cpus|
  {
    var k := o.cpus[c];
    match k.mode
    case Stopped => (o, [])
    case Fetch => (Fetched(o, c, Recheck), [])
    case Top =>
      if k.proc.None? then (Fetched(o, c, Top), [])
      else
        var p := k.proc.value;
        if Pc(o, p) == p.size then
          (SetCpu(o.(sched := Finish(o.sched, p), freed := o.freed + {p}), c, Cpu(Fetch, None, 0)), [Released(c, p)])
        else if k.timeLeft == 0 then
          (SetCpu(o.(sched := PutBack(o.sched, p)), c, Cpu(Fetch, None, 0)), [Released(c, p)])
        else (SetCpu(o, c, k.(mode := Recheck)), [])
    case Recheck =>
      if k.proc.None? then (SetCpu(o, c, k.(mode := if o.done then Stopped else Top)), [])
      else if k.timeLeft == 0 then
        var (o', ran) := RunOne(o, c, k.proc.value, o.timeSlot);
        (o', [Dispatched(c, k.proc.value)] + ran)
      else RunOne(o, c, k.proc.value, k.timeLeft)
  }

  /** One round of ld_routine's loop once the start time has come, or the end of the loop. */
  function LoaderStep(o: Os): Os
    requires Valid(o.sched)
  {
    if o.loaded < |o.programs| then
      var p := o.programs[o.loaded];
      o.(sched := Add(o.sched, p), pc := o.pc[p.pid := 0], loaded := o.loaded + 1)
    else o.(done := true)
  }

  // ---- where every process is ----------------------------------------------------

  /** Admitted and not yet freed. */
  function LiveSet(o: Os): (r: set<Proc>)
    requires o.loaded <= |o.programs|
    ensures forall p :: p in r <==> p in o.programs[..o.loaded] && p !in o.freed
  {
    set p | p in o.programs[..o.loaded] && p !in o.freed
  }

  ghost predicate Holds(o: Os, c: nat, p: Proc) {
    c < |o.cpus| && o.cpus[c].proc == Some(p)
  }

  ghost predicate Held(o: Os, p: Proc) {
    exists c: nat :: Holds(o, c, p)
  }

  /** Each ready queue holds live processes of its level that no CPU holds, each once. */
  ghost predicate QueuesOk(o: Os)
    requires Valid(o.sched) && o.loaded <= |o.programs|
  {
    && (forall l :: 0 <= l < MAX_PRIO ==> Distinct(o.sched.ready[l]))
    && (forall l, p :: 0 <= l < MAX_PRIO && p in o.sched.ready[l] ==> Level(p) == l && p in LiveSet(o) && !Held(o, p))
  }

  /** The CPUs hold different live processes, and the running list holds nothing else.  With at
      most 50 CPUs it has room for all of them. */
  ghost predicate HoldersOk(o: Os)
    requires o.loaded <= |o.programs|
  {
    && (forall c: nat, p :: Holds(o, c, p) ==> p in LiveSet(o))
    && (forall c: nat, d: nat, p :: Holds(o, c, p) && Holds(o, d, p) ==> c == d)
    && Distinct(o.sched.running) && (forall p :: p in o.sched.running ==> Held(o, p))
    && (|o.cpus| <= MAX_QUEUE_SIZE ==> forall p :: Held(o, p) ==> p in o.sched.running)
    && (forall c :: 0 <= c < |o.cpus| ==> ModeFits(o.cpus[c]))
  }

  predicate ModeFits(k: Cpu) {
    && (k.mode.Fetch? || k.mode.Stopped? ==> k.proc.None?)
    && (k.proc.None? ==> k.timeLeft == 0)
  }

  /** Program counters; a freed process has run to its end. */
  ghost predicate CountersOk(o: Os)
    requires o.loaded <= |o.programs|
  {
    && (forall p :: p in o.programs[..o.loaded] ==> p.pid in o.pc && o.pc[p.pid] <= p.size)
    && (forall p :: p in o.freed ==> p in o.programs[..o.loaded] && o.pc[p.pid] == p.size)
  }

  predicate DistinctPids(ps: seq<Proc>) {
    forall i, j :: 0 <= i < j < |ps| ==> ps[i].pid != ps[j].pid
  }

  ghost predicate Inv(o: Os) {
    && Valid(o.sched) && o.loaded <= |o.programs| && DistinctPids(o.programs)
    && QueuesOk(o) && HoldersOk(o) && CountersOk(o)
  }

  // ---- queue operations --------------------------------------------------------------

  lemma WithoutMembers(q: seq<Proc>, i: nat)
    requires Distinct(q) && i < |q|
    ensures Distinct(Without(q, i))
    ensures forall x :: x in Without(q, i) <==> x in q && x != q[i]
  {
    var r := Without(q, i);
    assert forall j :: 0 <= j < |r| ==> r[j] == q[if j < i then j else j + 1];
    forall x | x in q && x != q[i]
      ensures x in r
    {
      var j :| 0 <= j < |q| && q[j] == x;
      assert r[if j < i then j else j - 1] == x;
    }
  }

  lemma PurgeMembers(q: seq<Proc>, p: Proc)
    requires Distinct(q)
    ensures Distinct(Purge(q, p))
    ensures forall x :: x in Purge(q, p) <==> x in q && x != p
  {
    if IndexOf(q, p) < |q| { WithoutMembers(q, IndexOf(q, p)); }
  }

  /** A process joins the members, if there is room. */
  lemma PutMembers(q: seq<Proc>, p: Proc)
    ensures forall x :: x in Put(q, p) <==> x in q || (x == p && |q| < MAX_QUEUE_SIZE)
    ensures Distinct(q) && p !in q ==> Distinct(Put(q, p))
  {
    if |q| < MAX_QUEUE_SIZE { assert (q + [p])[|q|] == p; }
  }

  /** The CPUs that hold the first n processes of the running list. */
  lemma {:induction false} HolderSeq(o: Os, n: nat) returns (hs: seq<nat>)
    requires o.loaded <= |o.programs| && HoldersOk(o) && n <= |o.sched.running|
    ensures |hs| == n && Distinct(hs) && forall i :: 0 <= i < n ==> Holds(o, hs[i], o.sched.running[i])
  {
    if n == 0 {
      return [];
    }
    hs := HolderSeq(o, n - 1);
    assert Held(o, o.sched.running[n - 1]);
    var c: nat :| Holds(o, c, o.sched.running[n - 1]);
    hs := hs + [c];
  }

  /** While a CPU is idle the running list is shorter than the number of CPUs. */
  lemma RunningFits(o: Os, c: nat)
    requires o.loaded <= |o.programs| && HoldersOk(o) && c < |o.cpus| && o.cpus[c].proc.None?
    ensures |o.sched.running| < |o.cpus|
  {
    var hs := HolderSeq(o, |o.sched.running|);
    UpToSize(|o.cpus|);
    forall i | 0 <= i < |hs|
      ensures hs[i] in UpTo(|o.cpus|) - {c}
    {
      assert Holds(o, hs[i], o.sched.running[i]);
    }
    DistinctFits(hs, UpTo(|o.cpus|) - {c});
  }

  // ---- every section keeps the invariant ----------------------------------------------

  /** The programs and what has been loaded and freed are the same, so the same are live. */
  predicate SameCrowd(o: Os, o': Os) {
    o'.programs == o.programs && o'.loaded == o.loaded && o'.freed == o.freed
  }

  lemma HoldersSame(o: Os, o': Os, c: nat, k: Cpu)
    requires o.loaded <= |o.programs| && HoldersOk(o) && SameCrowd(o, o')
    requires c < |o.cpus| && o'.cpus == o.cpus[c := k] && o'.sched.running == o.sched.running
    requires k.proc == o.cpus[c].proc && ModeFits(k)
    ensures HoldersOk(o') && forall p :: Held(o', p) <==> Held(o, p)
  {
    assert LiveSet(o') == LiveSet(o);
    assert forall d: nat, p :: Holds(o', d, p) <==> Holds(o, d, p);
    assert forall p :: Held(o', p) <==> Held(o, p);
  }

  lemma HoldersGain(o: Os, o': Os, c: nat, k: Cpu, p: Proc)
    requires o.loaded <= |o.programs| && HoldersOk(o) && SameCrowd(o, o') && c < |o.cpus| && o'.cpus == o.cpus[c := k]
    requires o.cpus[c].proc.None? && k.proc == Some(p) && k.mode.Recheck? && !Held(o, p) && p in LiveSet(o)
    requires o'.sched.running == Put(o.sched.running, p)
    ensures HoldersOk(o') && forall x :: Held(o', x) <==> Held(o, x) || x == p
  {
    assert LiveSet(o') == LiveSet(o);
    assert forall d: nat, x :: Holds(o', d, x) <==> Holds(o, d, x) || (d == c && x == p);
    assert Holds(o', c, p);
    forall x
      ensures Held(o', x) <==> Held(o, x) || x == p
    {
      if d: nat :| Holds(o, d, x) { assert Holds(o', d, x); }
    }
    assert !Held(o, p) ==> p !in o.sched.running;
    PutMembers(o.sched.running, p);
    RunningFits(o, c);
  }

  lemma HoldersLose(o: Os, o': Os, c: nat, k: Cpu, p: Proc)
    requires o.loaded <= |o.programs| && HoldersOk(o) && Holds(o, c, p)
    requires o'.programs == o.programs && o'.loaded == o.loaded && o.freed <= o'.freed <= o.freed + {p}
    requires o'.cpus == o.cpus[c := k] && k.proc.None? && ModeFits(k)
    requires o'.sched.running == Purge(o.sched.running, p)
    ensures HoldersOk(o') && forall x :: Held(o', x) <==> Held(o, x) && x != p
  {
    PurgeMembers(o.sched.running, p);
    assert LiveSet(o) - {p} <= LiveSet(o') <= LiveSet(o);
    assert forall d: nat, x :: Holds(o', d, x) <==> Holds(o, d, x) && d != c;
    forall x
      ensures Held(o', x) <==> Held(o, x) && x != p
    {
      if d: nat :| Holds(o, d, x) && x != p { assert Holds(o', d, x); }
    }
  }

  lemma QueuesGet(o: Os, o': Os, p: Proc, l: nat)
    requires Valid(o.sched) && Valid(o'.sched) && o.loaded <= |o.programs| && SameCrowd(o, o')
    requires QueuesOk(o) && l < MAX_PRIO && p in o.sched.ready[l] && forall x :: Held(o', x) <==> Held(o, x) || x == p
    requires forall k :: 0 <= k < MAX_PRIO && k != l ==> o'.sched.ready[k] == o.sched.ready[k]
    requires Distinct(o'.sched.ready[l]) && forall x :: x in o'.sched.ready[l] <==> x in o.sched.ready[l] && x != p
    ensures QueuesOk(o')
  {
    hide Held;
    assert LiveSet(o') == LiveSet(o);
    forall k, x | 0 <= k < MAX_PRIO && x in o'.sched.ready[k]
      ensures Level(x) == k && x in LiveSet(o') && !Held(o', x)
    {
      assert x in o.sched.ready[k];
    }
    forall k | 0 <= k < MAX_PRIO
      ensures Distinct(o'.sched.ready[k])
    {
    }
  }

  lemma QueuesPut(o: Os, o': Os, p: Proc)
    requires Valid(o.sched) && Valid(o'.sched) && o.loaded <= |o.programs| && SameCrowd(o, o')
    requires QueuesOk(o) && Held(o, p) && p in LiveSet(o) && forall x :: Held(o', x) <==> Held(o, x) && x != p
    requires o'.sched.ready == o.sched.ready[Level(p) := Put(o.sched.ready[Level(p)], p)]
    ensures QueuesOk(o')
  {
    hide Held;
    assert p !in o.sched.ready[Level(p)];
    PutMembers(o.sched.ready[Level(p)], p);
    hide Put;
    assert LiveSet(o') == LiveSet(o);
  }

  lemma QueuesFinish(o: Os, o': Os, p: Proc)
    requires Valid(o.sched) && Valid(o'.sched) && o.loaded <= |o.programs|
    requires o'.programs == o.programs && o'.loaded == o.loaded && o'.freed == o.freed + {p}
    requires QueuesOk(o) && Held(o, p) && o'.sched.ready == o.sched.ready
    requires forall x :: Held(o', x) <==> Held(o, x) && x != p
    ensures QueuesOk(o') && LiveSet(o') == LiveSet(o) - {p}
  {
    hide Held;
    assert LiveSet(o') == LiveSet(o) - {p};
  }

  lemma QueuesAdd(o: Os, o': Os, p: Proc)
    requires Valid(o.sched) && Valid(o'.sched) && o.loaded < |o.programs| && p == o.programs[o.loaded]
    requires o'.programs == o.programs && o'.loaded == o.loaded + 1 && o'.freed == o.freed
    requires QueuesOk(o) && p !in o.programs[..o.loaded] && p !in o.freed && !Held(o, p)
    requires forall x :: Held(o', x) <==> Held(o, x)
    requires o'.sched.ready == o.sched.ready[Level(p) := Put(o.sched.ready[Level(p)], p)]
    ensures QueuesOk(o') && LiveSet(o') == LiveSet(o) + {p}
  {
    hide Held;
    assert o'.programs[..o'.loaded] == o.programs[..o.loaded] + [p];
    assert LiveSet(o') == LiveSet(o) + {p};
    assert p !in o.sched.ready[Level(p)];
    PutMembers(o.sched.ready[Level(p)], p);
    hide Put;
  }

  lemma QueuesSame(o: Os, o': Os)
    requires Valid(o.sched) && Valid(o'.sched) && o.loaded <= |o.programs| && SameCrowd(o, o')
    requires QueuesOk(o) && o'.sched.ready == o.sched.ready && forall x :: Held(o', x) <==> Held(o, x)
    ensures QueuesOk(o')
  {
    hide Held;
    assert LiveSet(o') == LiveSet(o);
  }

  /** What get_mlq_proc does to the queues of a machine in order. */
  lemma GetMoves(o: Os)
    requires Inv(o) && Get(o.sched).1.Served?
    ensures var (s, got) := Get(o.sched);
            && got.level < MAX_PRIO && got.p in o.sched.ready[got.level] && !Held(o, got.p) && got.p in LiveSet(o)
            && (forall k :: 0 <= k < MAX_PRIO && k != got.level ==> s.ready[k] == o.sched.ready[k])
            && Distinct(s.ready[got.level])
            && (forall x :: x in s.ready[got.level] <==> x in o.sched.ready[got.level] && x != got.p)
            && s.running == Put(o.sched.running, got.p)
  {
    GetConservesWork(o.sched);
    var got := Get(o.sched).1;
    var q := o.sched.ready[got.level];
    hide Get, HoldersOk, CountersOk, Held;
    WithoutMembers(q, Best(q));
    assert got.p in q;
  }

  lemma CountersSame(o: Os, o': Os)
    requires o.loaded <= |o.programs| && CountersOk(o) && SameCrowd(o, o') && o'.pc == o.pc
    ensures CountersOk(o')
  {
  }

  lemma GetSomebody(o: Os, c: nat, nobody: Mode)
    requires Inv(o) && c < |o.cpus| && o.cpus[c].proc.None? && Get(o.sched).1.Served?
    ensures Inv(Fetched(o, c, nobody))
    ensures forall x :: Held(Fetched(o, c, nobody), x) <==> Held(o, x) || x == Get(o.sched).1.p
  {
    var o' := Fetched(o, c, nobody);
    GetMoves(o);
    hide Get, HoldersOk, QueuesOk, CountersOk, Distinct, Held, Put;
    HoldersGain(o, o', c, o'.cpus[c], Get(o.sched).1.p);
    QueuesGet(o, o', Get(o.sched).1.p, Get(o.sched).1.level);
    CountersSame(o, o');
  }

  lemma GetNothing(s: Sched)
    requires Valid(s) && Get(s).1.Nobody?
    ensures Get(s).0.ready == s.ready && Get(s).0.running == s.running
  {
    GetConservesWork(s);
  }

  lemma GetNobody(o: Os, c: nat, nobody: Mode)
    requires Inv(o) && c < |o.cpus| && o.cpus[c].proc.None? && Get(o.sched).1.Nobody?
    requires (nobody.Top? || nobody.Recheck?)
    ensures Inv(Fetched(o, c, nobody)) && forall x :: Held(Fetched(o, c, nobody), x) <==> Held(o, x)
  {
    var o' := Fetched(o, c, nobody);
    assert ModeFits(o.cpus[c]);
    GetNothing(o.sched);
    hide Get, HoldersOk, QueuesOk, CountersOk, Held;
    CountersSame(o, o');
    HoldersSame(o, o', c, o'.cpus[c]);
    QueuesSame(o, o');
  }

  /** A finished process leaves the running list for good. */
  lemma FinishKeeps(o: Os, c: nat)
    requires Inv(o) && c < |o.cpus| && o.cpus[c].mode.Top? && o.cpus[c].proc.Some?
    requires Pc(o, o.cpus[c].proc.value) == o.cpus[c].proc.value.size
    ensures Inv(CpuStep(o, c).0) && forall x :: Held(CpuStep(o, c).0, x) <==> Held(o, x) && x != o.cpus[c].proc.value
  {
    var o' := CpuStep(o, c).0;
    var p := o.cpus[c].proc.value;
    assert Holds(o, c, p) && p in LiveSet(o) && Held(o, p);
    hide Purge, HoldersOk, QueuesOk, Distinct, Held;
    HoldersLose(o, o', c, o'.cpus[c], p);
    QueuesFinish(o, o', p);
  }

  /** A process whose time is up leaves the running list and goes back to its own ready queue. */
  lemma PutBackKeeps(o: Os, c: nat)
    requires Inv(o) && c < |o.cpus| && o.cpus[c].mode.Top? && o.cpus[c].proc.Some?
    requires Pc(o, o.cpus[c].proc.value) != o.cpus[c].proc.value.size && o.cpus[c].timeLeft == 0
    ensures Inv(CpuStep(o, c).0) && forall x :: Held(CpuStep(o, c).0, x) <==> Held(o, x) && x != o.cpus[c].proc.value
  {
    var o' := CpuStep(o, c).0;
    var p := o.cpus[c].proc.value;
    assert Holds(o, c, p) && p in LiveSet(o) && Held(o, p);
    hide Purge, Put, HoldersOk, QueuesOk, CountersOk, Distinct, Held;
    HoldersLose(o, o', c, o'.cpus[c], p);
    QueuesPut(o, o', p);
    CountersSame(o, o');
  }

  /** Running an instruction, and the turns of the loop that touch no queue. */
  lemma LocalKeeps(o: Os, c: nat, k: Cpu, pc: map<nat, nat>)
    requires Inv(o) && c < |o.cpus| && k.proc == o.cpus[c].proc && ModeFits(k)
    requires pc == o.pc || (k.proc.Some? && Pc(o, k.proc.value) < k.proc.value.size
                            && pc == o.pc[k.proc.value.pid := Pc(o, k.proc.value) + 1])
    ensures Inv(SetCpu(o.(pc := pc), c, k)) && forall x :: Held(SetCpu(o.(pc := pc), c, k), x) <==> Held(o, x)
  {
    var o' := SetCpu(o.(pc := pc), c, k);
    if k.proc.Some? { assert Holds(o, c, k.proc.value) && k.proc.value in LiveSet(o); }
    CountersLocal(o, o', c);
    hide HoldersOk, QueuesOk, CountersOk, Valid, Held;
    HoldersSame(o, o', c, k);
    QueuesSame(o, o');
  }

  lemma CountersLocal(o: Os, o': Os, c: nat)
    requires o.loaded <= |o.programs| && CountersOk(o) && DistinctPids(o.programs) && SameCrowd(o, o') && c < |o.cpus|
    requires o'.pc == o.pc || (o.cpus[c].proc.Some? && o.cpus[c].proc.value in LiveSet(o)
                               && Pc(o, o.cpus[c].proc.value) < o.cpus[c].proc.value.size
                               && o'.pc == o.pc[o.cpus[c].proc.value.pid := Pc(o, o.cpus[c].proc.value) + 1])
    ensures CountersOk(o')
  {
    if o'.pc != o.pc {
      var p := o.cpus[c].proc.value;
      forall x | x in o.programs[..o.loaded]
        ensures x.pid in o'.pc && o'.pc[x.pid] <= x.size
      {
        if x != p { PidsDiffer(o.programs, o.loaded, x, p); }
      }
      forall x | x in o.freed
        ensures o'.pc[x.pid] == x.size
      {
        PidsDiffer(o.programs, o.loaded, x, p);
      }
    }
  }

  lemma PidsDiffer(ps: seq<Proc>, n: nat, x: Proc, y: Proc)
    requires DistinctPids(ps) && n <= |ps| && x in ps[..n] && y in ps[..n] && x != y
    ensures x.pid != y.pid
  {
    var i :| 0 <= i < n && ps[i] == x;
    var j :| 0 <= j < n && ps[j] == y;
  }

  lemma CpuKeeps(o: Os, c: nat)
    requires Inv(o) && c < |o.cpus|
    ensures Inv(CpuStep(o, c).0)
  {
    var k := o.cpus[c];
    assert ModeFits(k);
    match k.mode
    case Stopped =>
    case Fetch =>
      if Get(o.sched).1.Served? { GetSomebody(o, c, Recheck); } else { GetNobody(o, c, Recheck); }
    case Top =>
      if k.proc.None? {
        if Get(o.sched).1.Served? { GetSomebody(o, c, Top); } else { GetNobody(o, c, Top); }
      } else if Pc(o, k.proc.value) == k.proc.value.size {
        FinishKeeps(o, c);
      } else if k.timeLeft == 0 {
        PutBackKeeps(o, c);
      } else {
        LocalKeeps(o, c, k.(mode := Recheck), o.pc);
      }
    case Recheck =>
      var o' := CpuStep(o, c).0;
      assert o' == SetCpu(o.(pc := o'.pc), c, o'.cpus[c]);
      LocalKeeps(o, c, o'.cpus[c], o'.pc);
  }
}
