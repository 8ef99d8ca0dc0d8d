/** The CPUs finish what was admitted: only so many of their sections can find anything to do. */
module CpuProgress {
  import opened Options
  import opened ReadyQueue
  import opened Mlq
  import opened CpuLoop
  import opened CpuRuns

  /** Work is measured in sections of cpu_routine, or in slots of time. */
  datatype Unit = Sections | Slots

  function Remaining(o: Os, p: Proc): nat {
    if Pc(o, p) < p.size then p.size - Pc(o, p) else 0
  }

  /** How many sections, or slots, a queued process with r instructions to go can still take up:
      a slot for every instruction, one for dispatching an empty program, and one for freeing it. */
  function QueuedWork(r: nat, u: Unit): nat {
    if u.Sections? then (if r == 0 then 5 else 5 * r) else if r == 0 then 2 else r + 1
  }

  /** The same for a process that a CPU holds, by where the CPU stands. */
  function HeldWork(k: Cpu, r: nat, u: Unit): nat {
    if u.Slots? then (if k.mode.Top? then r + 1 else if r == 0 then 2 else r + 1)
    else if k.mode.Top? then 5 * r + 3
    else if r == 0 then 4
    else if k.timeLeft == 0 then 5 * r - 1
    else 5 * r + 2
  }

  function CpuWork(o: Os, c: nat, u: Unit): nat
    requires c < |o.cpus|
  {
    var k := o.cpus[c];
    match k.proc
    case Some(p) => HeldWork(k, Remaining(o, p), u)
    case None => if u.Slots? then 0 else if k.mode.Fetch? then 2 else if k.mode.Recheck? then 1 else 0
  }

  function QueueWork(o: Os, p: Proc, u: Unit): nat
    requires Valid(o.sched)
  {
    if p in o.sched.ready[Level(p)] then QueuedWork(Remaining(o, p), u) else 0
  }

  function AllCpuWork(o: Os, n: nat, u: Unit): nat
    requires n <= |o.cpus|
  {
    if n == 0 then 0 else AllCpuWork(o, n - 1, u) + CpuWork(o, n - 1, u)
  }

  function AllQueueWork(o: Os, n: nat, u: Unit): nat
    requires Valid(o.sched) && n <= |o.programs|
  {
    if n == 0 then 0 else AllQueueWork(o, n - 1, u) + QueueWork(o, o.programs[n - 1], u)
  }

  function Work(o: Os, u: Unit): nat
    requires Valid(o.sched) && o.loaded <= |o.programs|
  {
    AllCpuWork(o, |o.cpus|, u) + AllQueueWork(o, o.loaded, u)
  }

  /** A section that cannot do anything: the CPU has stopped, or finds no process at the top of its
      loop. */
  ghost predicate Idle(o: Os, c: nat)
    requires Valid(o.sched) && c < |o.cpus|
  {
    o.cpus[c].mode.Stopped? || (o.cpus[c].mode.Top? && o.cpus[c].proc.None? && Get(o.sched).1.Nobody?)
  }

  // ---- sums ---------------------------------------------------------------------------

  lemma {:induction false} CpuSum(o: Os, o': Os, c: nat, n: nat, u: Unit)
    requires |o'.cpus| == |o.cpus| && c < |o.cpus| && n <= |o.cpus|
    requires forall d :: 0 <= d < n && d != c ==> CpuWork(o', d, u) == CpuWork(o, d, u)
    ensures AllCpuWork(o', n, u) + (if c < n then CpuWork(o, c, u) else 0)
         == AllCpuWork(o, n, u) + (if c < n then CpuWork(o', c, u) else 0)
  {
    hide CpuWork;
    if n == 0 {
    } else {
      CpuSum(o, o', c, n - 1, u);
    }
  }

  lemma {:induction false} CpuSumSame(o: Os, o': Os, n: nat, u: Unit)
    requires n <= |o.cpus| == |o'.cpus| && forall d :: 0 <= d < n ==> CpuWork(o', d, u) == CpuWork(o, d, u)
    ensures AllCpuWork(o', n, u) == AllCpuWork(o, n, u)
  {
    hide CpuWork;
    if n == 0 {
    } else {
      CpuSumSame(o, o', n - 1, u);
    }
  }

  lemma {:induction false} QueueSum(o: Os, o': Os, k: nat, n: nat, u: Unit)
    requires Valid(o.sched) && Valid(o'.sched) && o'.programs == o.programs && k < |o.programs| && n <= |o.programs|
    requires forall i :: 0 <= i < n && i != k ==> QueueWork(o', o.programs[i], u) == QueueWork(o, o.programs[i], u)
    ensures AllQueueWork(o', n, u) + (if k < n then QueueWork(o, o.programs[k], u) else 0)
         == AllQueueWork(o, n, u) + (if k < n then QueueWork(o', o.programs[k], u) else 0)
  {
    hide QueueWork;
    if n == 0 {
    } else {
      QueueSum(o, o', k, n - 1, u);
    }
  }

  lemma {:induction false} QueueSumSame(o: Os, o': Os, n: nat, u: Unit)
    requires Valid(o.sched) && Valid(o'.sched) && o'.programs == o.programs && n <= |o.programs|
    requires forall i :: 0 <= i < n ==> QueueWork(o', o.programs[i], u) == QueueWork(o, o.programs[i], u)
    ensures AllQueueWork(o', n, u) == AllQueueWork(o, n, u)
  {
    hide QueueWork;
    if n == 0 {
    } else {
      QueueSumSame(o, o', n - 1, u);
    }
  }

  // ---- what other processes and CPUs have to do stays --------------------------------------

  /** Only CPU c, and the counter of the process it held, changed. */
  ghost predicate OnlyCpu(o: Os, o': Os, c: nat, p: Proc) {
    && c < |o.cpus| == |o'.cpus| && (forall d :: 0 <= d < |o.cpus| && d != c ==> o'.cpus[d] == o.cpus[d])
    && o'.programs == o.programs && o'.loaded == o.loaded
    && (o'.pc == o.pc || (Holds(o, c, p) && o'.pc == o.pc[p.pid := Pc(o, p) + 1]))
  }

  /** No other process entered or left its ready queue. */
  ghost predicate OnlyProc(o: Os, o': Os, p: Proc)
    requires Valid(o.sched) && Valid(o'.sched)
  {
    forall x :: x != p ==> (x in o'.sched.ready[Level(x)] <==> x in o.sched.ready[Level(x)])
  }

  lemma OtherCounters(o: Os, o': Os, c: nat, p: Proc, x: Proc)
    requires Inv(o) && OnlyCpu(o, o', c, p) && x in o.programs[..o.loaded] && (x != p || o'.pc == o.pc)
    ensures Remaining(o', x) == Remaining(o, x)
  {
    if o'.pc != o.pc {
      HolderIsLive(o, c, p);
      PidsDiffer(o.programs, o.loaded, x, p);
    }
  }

  lemma OtherCpus(o: Os, o': Os, c: nat, p: Proc, u: Unit)
    requires Inv(o) && OnlyCpu(o, o', c, p)
    ensures forall d :: 0 <= d < |o.cpus| && d != c ==> CpuWork(o', d, u) == CpuWork(o, d, u)
  {
    forall d | 0 <= d < |o.cpus| && d != c
      ensures CpuWork(o', d, u) == CpuWork(o, d, u)
    {
      if o.cpus[d].proc.Some? {
        var q := o.cpus[d].proc.value;
        HolderIsLive(o, d, q);
        assert Holds(o, d, q);
        assert Holds(o, c, p) ==> q != p;
        OtherCounters(o, o', c, p, q);
      }
    }
  }

  lemma OtherQueued(o: Os, o': Os, c: nat, p: Proc, u: Unit)
    requires Inv(o) && Inv(o') && OnlyCpu(o, o', c, p) && OnlyProc(o, o', p)
    ensures forall x :: x in o.programs[..o.loaded] && x != p ==> QueueWork(o', x, u) == QueueWork(o, x, u)
  {
    forall x | x in o.programs[..o.loaded] && x != p
      ensures QueueWork(o', x, u) == QueueWork(o, x, u)
    {
      OtherCounters(o, o', c, p, x);
    }
  }

  /** A section that moves CPU c and process p changes the work by what it changes of these two. */
  lemma WorkBalance(o: Os, o': Os, c: nat, p: Proc, u: Unit)
    requires Inv(o) && Inv(o') && OnlyCpu(o, o', c, p) && OnlyProc(o, o', p) && p in o.programs[..o.loaded]
    ensures Work(o', u) + CpuWork(o, c, u) + QueueWork(o, p, u) == Work(o, u) + CpuWork(o', c, u) + QueueWork(o', p, u)
  {
    OtherCpus(o, o', c, p, u);
    OtherQueued(o, o', c, p, u);
    var k :| 0 <= k < o.loaded && o.programs[k] == p;
    forall i | 0 <= i < o.loaded && i != k
      ensures QueueWork(o', o.programs[i], u) == QueueWork(o, o.programs[i], u)
    {
      assert o.programs[i].pid != o.programs[k].pid && o.programs[i] in o.programs[..o.loaded];
    }
    hide CpuWork, QueueWork, Inv, OnlyCpu, OnlyProc;
    CpuSum(o, o', c, |o.cpus|, u);
    QueueSum(o, o', k, o.loaded, u);
  }

  // ---- what a section does to the work ---------------------------------------------------

  lemma FetchFrame(o: Os, c: nat, nobody: Mode)
    requires Inv(o) && c < |o.cpus| && o.cpus[c].proc.None? && Get(o.sched).1.Served?
    ensures var o' := Fetched(o, c, nobody); var p := Get(o.sched).1.p;
            && Inv(o') && OnlyCpu(o, o', c, p) && OnlyProc(o, o', p) && p in o.programs[..o.loaded]
            && p in o.sched.ready[Level(p)] && p !in o'.sched.ready[Level(p)]
  {
    GetMoves(o);
    GetSomebody(o, c, nobody);
    hide Get, Held, Put;
  }

  /** Fetching a process: a section is used up, but no slot. */
  lemma FetchWorks(o: Os, c: nat, nobody: Mode)
    requires Inv(o) && c < |o.cpus| && o.cpus[c].proc.None? && Get(o.sched).1.Served?
    ensures Inv(Fetched(o, c, nobody))
    ensures Work(Fetched(o, c, nobody), Sections) < Work(o, Sections)
    ensures Work(Fetched(o, c, nobody), Slots) == Work(o, Slots)
  {
    var o' := Fetched(o, c, nobody);
    var p := Get(o.sched).1.p;
    assert ModeFits(o.cpus[c]);
    FetchFrame(o, c, nobody);
    hide Get, Inv, Work, OnlyProc;
    WorkBalance(o, o', c, p, Sections);
    WorkBalance(o, o', c, p, Slots);
  }

  /** A section of a CPU without a process that leaves the queues and the counters alone. */
  lemma EmptyHanded(o: Os, o': Os, c: nat, u: Unit)
    requires Inv(o) && Inv(o') && c < |o.cpus| == |o'.cpus|
    requires forall d :: 0 <= d < |o.cpus| && d != c ==> o'.cpus[d] == o.cpus[d]
    requires o'.programs == o.programs && o'.loaded == o.loaded && o'.pc == o.pc && o'.sched.ready == o.sched.ready
    ensures Work(o', u) + CpuWork(o, c, u) == Work(o, u) + CpuWork(o', c, u)
  {
    forall d | 0 <= d < |o.cpus| && d != c
      ensures CpuWork(o', d, u) == CpuWork(o, d, u)
    {
    }
    forall i | 0 <= i < o.loaded
      ensures QueueWork(o', o.programs[i], u) == QueueWork(o, o.programs[i], u)
    {
    }
    hide CpuWork, QueueWork, Inv;
    CpuSum(o, o', c, |o.cpus|, u);
    QueueSumSame(o, o', o.loaded, u);
  }

  /** What a section of a CPU that holds process p leaves alone. */
  lemma HolderFrame(o: Os, c: nat)
    requires Inv(o) && c < |o.cpus| && o.cpus[c].proc.Some?
    ensures var o' := CpuStep(o, c).0; var p := o.cpus[c].proc.value;
            && Inv(o') && OnlyCpu(o, o', c, p) && p in o.programs[..o.loaded] && OnlyProc(o, o', p)
  {
    var p := o.cpus[c].proc.value;
    var o' := CpuStep(o, c).0;
    assert ModeFits(o.cpus[c]) && Holds(o, c, p);
    HolderIsLive(o, c, p);
    CpuKeeps(o, c);
    hide Inv;
    forall x | x != p
      ensures x in o'.sched.ready[Level(x)] <==> x in o.sched.ready[Level(x)]
    {
      PutMembers(o.sched.ready[Level(p)], p);
    }
  }

  /** The section runs an instruction, dispatches an empty program, or frees a process. */
  predicate Progresses(o: Os, c: nat) {
    && c < |o.cpus| && o.cpus[c].proc.Some?
    && (o.cpus[c].mode.Recheck? || Pc(o, o.cpus[c].proc.value) == o.cpus[c].proc.value.size)
  }

  lemma HolderGains(o: Os, c: nat)
    requires Inv(o) && c < |o.cpus| && o.cpus[c].proc.Some?
    ensures var o' := CpuStep(o, c).0; var p := o.cpus[c].proc.value;
            && Valid(o'.sched) && c < |o'.cpus|
            && CpuWork(o', c, Sections) + QueueWork(o', p, Sections)
               < CpuWork(o, c, Sections) + QueueWork(o, p, Sections)
            && CpuWork(o', c, Slots) + QueueWork(o', p, Slots) + (if Progresses(o, c) then 1 else 0)
               <= CpuWork(o, c, Slots) + QueueWork(o, p, Slots)
  {
    var p := o.cpus[c].proc.value;
    assert ModeFits(o.cpus[c]) && Holds(o, c, p) && Held(o, p);
    HolderIsLive(o, c, p);
    assert p.pid in o.pc && o.pc[p.pid] <= p.size && p !in o.sched.ready[Level(p)];
    hide Inv, Purge;
  }

  /** The sections of a CPU that holds a process. */
  lemma HolderWorks(o: Os, c: nat)
    requires Inv(o) && c < |o.cpus| && o.cpus[c].proc.Some?
    ensures Inv(CpuStep(o, c).0) && Work(CpuStep(o, c).0, Sections) < Work(o, Sections)
    ensures Work(CpuStep(o, c).0, Slots) + (if Progresses(o, c) then 1 else 0) <= Work(o, Slots)
  {
    HolderFrame(o, c);
    HolderGains(o, c);
    hide CpuStep, CpuWork, QueueWork, Work, Progresses, Inv, OnlyProc;
    WorkBalance(o, CpuStep(o, c).0, c, o.cpus[c].proc.value, Sections);
    WorkBalance(o, CpuStep(o, c).0, c, o.cpus[c].proc.value, Slots);
  }

  /** A section of a CPU that neither holds a process nor gets one. */
  lemma LookingFrame(o: Os, c: nat)
    requires Inv(o) && c < |o.cpus| && o.cpus[c].proc.None?
    requires o.cpus[c].mode.Fetch? || o.cpus[c].mode.Top? ==> Get(o.sched).1.Nobody?
    ensures var o' := CpuStep(o, c).0; var mode := o.cpus[c].mode;
            && c < |o.cpus| == |o'.cpus| && (forall d :: 0 <= d < |o.cpus| && d != c ==> o'.cpus[d] == o.cpus[d])
            && o'.programs == o.programs && o'.loaded == o.loaded && o'.pc == o.pc && o'.sched.ready == o.sched.ready
            && o'.cpus[c].proc.None? && !o'.cpus[c].mode.Fetch?
            && (mode.Fetch? <==> o'.cpus[c].mode.Recheck?)
  {
    var k := o.cpus[c];
    assert ModeFits(k);
    if k.mode.Fetch? || k.mode.Top? {
      GetNothing(o.sched);
      hide Get, Inv;
      assert CpuStep(o, c).0 == Fetched(o, c, if k.mode.Fetch? then Recheck else Top);
    } else {
      hide Get, Inv;
    }
  }

  lemma LookingWorks(o: Os, c: nat)
    requires Inv(o) && c < |o.cpus| && o.cpus[c].proc.None?
    requires o.cpus[c].mode.Fetch? || o.cpus[c].mode.Top? ==> Get(o.sched).1.Nobody?
    ensures var o' := CpuStep(o, c).0;
            && Inv(o') && Work(o', Slots) == Work(o, Slots)
            && (if Idle(o, c) then Work(o', Sections) == Work(o, Sections) else Work(o', Sections) < Work(o, Sections))
  {
    var o' := CpuStep(o, c).0;
    CpuKeeps(o, c);
    LookingFrame(o, c);
    hide CpuStep, Get, Inv, Work;
    EmptyHanded(o, o', c, Sections);
    EmptyHanded(o, o', c, Slots);
  }

  /** Every section of a CPU that is not idle lowers the work that is left; slots are used up only
      by sections that run, dispatch an empty program, or free. */
  lemma BusySectionWorks(o: Os, c: nat)
    requires Inv(o) && c < |o.cpus|
    ensures var o' := CpuStep(o, c).0;
            && Inv(o')
            && (if Idle(o, c) then Work(o', Sections) == Work(o, Sections) else Work(o', Sections) < Work(o, Sections))
            && Work(o', Slots) + (if Progresses(o, c) then 1 else 0) <= Work(o, Slots)
  {
    var k := o.cpus[c];
    assert ModeFits(k);
    hide Inv, Work, Get;
    if k.proc.Some? {
      hide CpuStep;
      HolderWorks(o, c);
    } else if (k.mode.Fetch? || k.mode.Top?) && Get(o.sched).1.Served? {
      FetchWorks(o, c, if k.mode.Fetch? then Recheck else Top);
    } else {
      hide CpuStep;
      LookingWorks(o, c);
    }
  }

  /** Loading leaves the work of the CPUs and of the processes loaded before alone. */
  lemma LoaderFrame(o: Os, u: Unit)
    requires Inv(o)
    ensures var o' := LoaderStep(o);
            && (forall d :: 0 <= d < |o.cpus| ==> CpuWork(o', d, u) == CpuWork(o, d, u))
            && (forall i :: 0 <= i < o.loaded ==> QueueWork(o', o.programs[i], u) == QueueWork(o, o.programs[i], u))
  {
    var o' := LoaderStep(o);
    if o.loaded < |o.programs| {
      NewPid(o, o.programs[o.loaded]);
      PutMembers(o.sched.ready[Level(o.programs[o.loaded])], o.programs[o.loaded]);
    }
    hide Put;
    forall d | 0 <= d < |o.cpus|
      ensures CpuWork(o', d, u) == CpuWork(o, d, u)
    {
      if o.cpus[d].proc.Some? { HolderIsLive(o, d, o.cpus[d].proc.value); }
    }
    hide Inv;
    forall i | 0 <= i < o.loaded
      ensures QueueWork(o', o.programs[i], u) == QueueWork(o, o.programs[i], u)
    {
      assert o.programs[i] in o.programs[..o.loaded];
    }
  }

  /** Admitting a process adds what it can take up. */
  lemma LoaderWorks(o: Os, u: Unit)
    requires Inv(o)
    ensures Inv(LoaderStep(o))
    ensures Work(LoaderStep(o), u)
         <= Work(o, u) + if o.loaded < |o.programs| then QueuedWork(o.programs[o.loaded].size, u) else 0
  {
    LoaderKeeps(o);
    LoaderFrame(o, u);
    hide Inv, CpuWork, QueueWork, Work, Put;
    WorkGrows(o, LoaderStep(o), u);
    if o.loaded < |o.programs| { NewWork(o, u); }
  }

  lemma WorkGrows(o: Os, o': Os, u: Unit)
    requires Valid(o.sched) && Valid(o'.sched) && |o'.cpus| == |o.cpus| && o'.programs == o.programs
    requires o.loaded <= o'.loaded <= o.loaded + 1 && o'.loaded <= |o.programs|
    requires forall d :: 0 <= d < |o.cpus| ==> CpuWork(o', d, u) == CpuWork(o, d, u)
    requires forall i :: 0 <= i < o.loaded ==> QueueWork(o', o.programs[i], u) == QueueWork(o, o.programs[i], u)
    ensures Work(o', u) == Work(o, u) + if o.loaded < o'.loaded then QueueWork(o', o.programs[o.loaded], u) else 0
  {
    hide CpuWork, QueueWork;
    CpuSumSame(o, o', |o.cpus|, u);
    QueueSumSame(o, o', o.loaded, u);
  }

  lemma NewWork(o: Os, u: Unit)
    requires Valid(o.sched) && o.loaded < |o.programs|
    ensures QueueWork(LoaderStep(o), o.programs[o.loaded], u) <= QueuedWork(o.programs[o.loaded].size, u)
  {
    hide Put;
  }

  // ---- runs --------------------------------------------------------------------------------

  /** How many sections of the run belong to a CPU that is not idle. */
  ghost function BusySections(o: Os, run: seq<Actor>): nat
    requires Inv(o) && Runnable(o, run)
    decreases |run|
  {
    if run == [] then 0 else
      ActKeeps(o, run[0]);
      (if run[0].CpuTurn? && !Idle(o, run[0].c) then 1 else 0) + BusySections(Act(o, run[0]).0, run[1..])
  }

  function TotalWork(ps: seq<Proc>, u: Unit): nat {
    if ps == [] then 0 else QueuedWork(ps[0].size, u) + TotalWork(ps[1..], u)
  }

  /** In any run, over whatever interleaving and for any time slot, the CPUs are busy for at most
      the work they begin with and that of the programs still to be loaded. */
  lemma {:induction false} BusySectionsAreBounded(o: Os, run: seq<Actor>)
    requires Inv(o) && Runnable(o, run)
    ensures var o' := Final(o, run);
            && o'.loaded <= |o'.programs| && o.loaded <= |o.programs|
            && BusySections(o, run) + Work(o', Sections) + TotalWork(o'.programs[o'.loaded..], Sections)
               <= Work(o, Sections) + TotalWork(o.programs[o.loaded..], Sections)
    decreases |run|
  {
    if run == [] {
    } else {
      var o1 := Act(o, run[0]).0;
      ActKeeps(o, run[0]);
      ActWorks(o, run[0]);
      hide Inv, Act, Work, TotalWork;
      BusySectionsAreBounded(o1, run[1..]);
    }
  }

  lemma ActWorks(o: Os, a: Actor)
    requires Inv(o) && Enabled(o, a)
    ensures var o' := Act(o, a).0;
            && Inv(o')
            && (if a.CpuTurn? && !Idle(o, a.c) then 1 else 0) + Work(o', Sections)
               + TotalWork(o'.programs[o'.loaded..], Sections)
               <= Work(o, Sections) + TotalWork(o.programs[o.loaded..], Sections)
  {
    ActLoads(o, a);
    match a
    case CpuTurn(c) =>
      BusySectionWorks(o, c);
      CpuPc(o, c);
    case LoaderTurn =>
      LoaderWorks(o, Sections);
      if o.loaded < |o.programs| { assert o.programs[o.loaded..][1..] == o.programs[o.loaded + 1..]; }
  }

  lemma {:induction false} NothingToDo(o: Os, n: nat, u: Unit)
    requires n <= |o.cpus| && forall c :: 0 <= c < |o.cpus| ==> o.cpus[c] == Cpu(Top, None, 0)
    ensures AllCpuWork(o, n, u) == 0
  {
    if n == 0 {
    } else {
      NothingToDo(o, n - 1, u);
    }
  }

  /** From start-up: at most 5 sections for every instruction of every program, and 5 for an empty
      program; beyond that many the CPUs only find empty queues. */
  lemma RunsAreBusyForBoundedTime(timeSlot: int, programs: seq<Proc>, ncpus: nat, run: seq<Actor>)
    requires var o := Boot(timeSlot, programs, ncpus); Inv(o) && Runnable(o, run)
    ensures BusySections(Boot(timeSlot, programs, ncpus), run) <= TotalWork(programs, Sections)
  {
    var o := Boot(timeSlot, programs, ncpus);
    BusySectionsAreBounded(o, run);
    NothingToDo(o, ncpus, Sections);
    assert programs[0..] == programs;
  }

  // ---- at rest -----------------------------------------------------------------------------

  lemma IdleHoldsNothing(o: Os, c: nat)
    requires Inv(o) && c < |o.cpus| && Idle(o, c)
    ensures o.cpus[c].proc.None?
    ensures !o.cpus[c].mode.Stopped? ==> !SomebodyQueued(o)
  {
    assert ModeFits(o.cpus[c]);
    GetConservesWork(o.sched);
  }

  lemma SomebodyIsLive(o: Os, l: nat) returns (p: Proc)
    requires Inv(o) && l < |o.sched.ready| && o.sched.ready[l] != []
    ensures p in o.programs[..o.loaded] && p !in o.freed && p in o.sched.ready[Level(p)]
  {
    p := o.sched.ready[l][0];
    assert p in o.sched.ready[l] && p in LiveSet(o);
  }

  /** Freed after the last instruction, or nowhere to be found. */
  ghost predicate DoneWith(o: Os, p: Proc)
    requires Inv(o)
  {
    (p in o.freed && Pc(o, p) == p.size) || Astray(o, p)
  }

  ghost predicate AllDoneWith(o: Os)
    requires Inv(o)
  {
    forall p :: p in o.programs[..o.loaded] ==> DoneWith(o, p)
  }

  ghost predicate AllIdle(o: Os)
    requires Valid(o.sched)
  {
    forall c :: 0 <= c < |o.cpus| ==> Idle(o, c)
  }

  ghost predicate SomebodyRuns(o: Os) {
    exists c :: 0 <= c < |o.cpus| && !o.cpus[c].mode.Stopped?
  }

  /** With all CPUs idle or stopped, everybody is done with exactly if all queues are empty; and they
      are, as long as one CPU has not stopped. */
  lemma IdleMeansDone(o: Os)
    requires Inv(o) && AllIdle(o)
    ensures AllDoneWith(o) <==> !SomebodyQueued(o)
    ensures SomebodyRuns(o) ==> !SomebodyQueued(o)
  {
    forall c | 0 <= c < |o.cpus|
      ensures o.cpus[c].proc.None? && (!o.cpus[c].mode.Stopped? ==> !SomebodyQueued(o))
    {
      assert Idle(o, c);
      IdleHoldsNothing(o, c);
    }
    if SomebodyQueued(o) {
      var l :| 0 <= l < |o.sched.ready| && o.sched.ready[l] != [];
      var p := SomebodyIsLive(o, l);
      assert !DoneWith(o, p);
    }
  }

  /** The process has run to its end and was freed, or an enqueue on a full ready queue lost it. */
  ghost predicate Accounted(o: Os, run: seq<Actor>, p: Proc)
    requires Inv(o) && Runnable(o, run)
  {
    var o' := Final(o, run);
    (p in o'.freed && Pc(o', p) == p.size) || Dropped(o, run, p)
  }

  ghost predicate AllAccounted(o: Os, run: seq<Actor>)
    requires Inv(o) && Runnable(o, run)
  {
    forall p :: p in Final(o, run).programs[..Final(o, run).loaded] ==> Accounted(o, run, p)
  }

  lemma AccountedMeansDone(timeSlot: int, programs: seq<Proc>, ncpus: nat, run: seq<Actor>)
    requires var o := Boot(timeSlot, programs, ncpus); Inv(o) && Runnable(o, run)
    ensures var o := Boot(timeSlot, programs, ncpus); AllAccounted(o, run) <==> AllDoneWith(Final(o, run))
  {
    var o := Boot(timeSlot, programs, ncpus);
    forall p
      ensures Accounted(o, run, p) <==> DoneWith(Final(o, run), p)
    {
      RunPlaces(o, run, p);
      assert !Astray(o, p);
    }
    hide Accounted, DoneWith;
  }

  /** When all CPUs are idle or have stopped, every process admitted so far has been freed after
      its last instruction, or was dropped, exactly if all queues are empty; and so they are as
      long as one CPU has not stopped. */
  lemma RestMeansFinished(timeSlot: int, programs: seq<Proc>, ncpus: nat, run: seq<Actor>)
    requires var o := Boot(timeSlot, programs, ncpus); Inv(o) && Runnable(o, run) && AllIdle(Final(o, run))
    ensures var o := Boot(timeSlot, programs, ncpus); var o' := Final(o, run);
            && (AllAccounted(o, run) <==> !SomebodyQueued(o'))
            && (SomebodyRuns(o') ==> !SomebodyQueued(o'))
  {
    hide Inv, Runnable, Final, AllAccounted, AllDoneWith, AllIdle, SomebodyQueued, SomebodyRuns;
    AccountedMeansDone(timeSlot, programs, ncpus, run);
    IdleMeansDone(Final(Boot(timeSlot, programs, ncpus), run));
  }
}
