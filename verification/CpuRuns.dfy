/** Whole runs of the CPUs and the loader, in any interleaving. */
module CpuRuns {
  import opened Options
  import opened Sequences
  import opened ReadyQueue
  import opened Mlq
  import opened CpuLoop

  datatype Actor = CpuTurn(c: nat) | LoaderTurn

  /** Any existing CPU, and the loader, at any time. */
  predicate Enabled(o: Os, a: Actor) {
    a.CpuTurn? ==> a.c < |o.cpus|
  }

  ghost function Act(o: Os, a: Actor): (Os, seq<Event>)
    requires Inv(o) && Enabled(o, a)
  {
    match a
    case CpuTurn(c) => CpuStep(o, c)
    case LoaderTurn => (LoaderStep(o), [])
  }

  lemma LoaderKeeps(o: Os)
    requires Inv(o)
    ensures Inv(LoaderStep(o)) && forall x :: Held(LoaderStep(o), x) <==> Held(o, x)
  {
    var o' := LoaderStep(o);
    HoldersUntouched(o, o');
    if o.loaded < |o.programs| {
      var p := o.programs[o.loaded];
      CountersAdd(o, o', p);
      NewPid(o, p);
      hide Put, QueuesOk, Distinct, HoldersOk, CountersOk, Held;
      QueuesAdd(o, o', p);
    } else {
      hide QueuesOk, HoldersOk, Held;
      QueuesSame(o, o');
    }
  }

  lemma CountersAdd(o: Os, o': Os, p: Proc)
    requires Inv(o) && o.loaded < |o.programs| && p == o.programs[o.loaded]
    requires o'.programs == o.programs && o'.loaded == o.loaded + 1 && o'.freed == o.freed && o'.pc == o.pc[p.pid := 0]
    ensures CountersOk(o')
  {
    NewPid(o, p);
    forall x | x in o'.programs[..o'.loaded]
      ensures x.pid in o'.pc && o'.pc[x.pid] <= x.size
    {
      if x != p { assert x in o.programs[..o.loaded]; }
    }
  }

  lemma HoldersUntouched(o: Os, o': Os)
    requires o.loaded <= |o.programs| && HoldersOk(o) && o'.cpus == o.cpus && o'.sched.running == o.sched.running
    requires o'.loaded <= |o'.programs| && LiveSet(o) <= LiveSet(o')
    ensures HoldersOk(o') && forall x :: Held(o', x) <==> Held(o, x)
  {
    assert forall d: nat, p :: Holds(o', d, p) <==> Holds(o, d, p);
    assert forall p :: Held(o', p) <==> Held(o, p);
  }

  lemma NewPid(o: Os, p: Proc)
    requires Inv(o) && o.loaded < |o.programs| && p == o.programs[o.loaded]
    ensures p !in o.programs[..o.loaded] && p !in o.freed && !Held(o, p)
    ensures forall x :: x in o.programs[..o.loaded] ==> x.pid != p.pid
    ensures o.programs[..o.loaded + 1] == o.programs[..o.loaded] + [p]
  {
  }

  lemma ActKeeps(o: Os, a: Actor)
    requires Inv(o) && Enabled(o, a)
    ensures Inv(Act(o, a).0)
  {
    match a
    case CpuTurn(c) => CpuKeeps(o, c);
    case LoaderTurn => LoaderKeeps(o);
  }

  ghost predicate Runnable(o: Os, run: seq<Actor>)
    requires Inv(o)
    decreases |run|
  {
    run == [] || (Enabled(o, run[0]) && (ActKeeps(o, run[0]); Runnable(Act(o, run[0]).0, run[1..])))
  }

  ghost function Final(o: Os, run: seq<Actor>): (o': Os)
    requires Inv(o) && Runnable(o, run)
    ensures Inv(o')
    decreases |run|
  {
    if run == [] then o else
      ActKeeps(o, run[0]);
      Final(Act(o, run[0]).0, run[1..])
  }

  ghost function Trace(o: Os, run: seq<Actor>): seq<Event>
    requires Inv(o) && Runnable(o, run)
    decreases |run|
  {
    if run == [] then [] else
      ActKeeps(o, run[0]);
      Act(o, run[0]).1 + Trace(Act(o, run[0]).0, run[1..])
  }

  /** The simulator before its threads start. */
  function Boot(timeSlot: int, programs: seq<Proc>, ncpus: nat): Os {
    Os(timeSlot, programs, NewSched(), seq(ncpus, _ => Cpu(Top, None, 0)), map[], 0, {}, false)
  }

  lemma BootInv(timeSlot: int, programs: seq<Proc>, ncpus: nat)
    requires DistinctPids(programs)
    ensures Inv(Boot(timeSlot, programs, ncpus))
  {
    var o := Boot(timeSlot, programs, ncpus);
    assert LiveSet(o) == {};
  }

  // ---- where a section leaves its thread ----------------------------------------------

  ghost predicate SomebodyQueued(o: Os) {
    exists l :: 0 <= l < |o.sched.ready| && o.sched.ready[l] != []
  }

  lemma ServedIfQueued(o: Os)
    requires Valid(o.sched)
    ensures Get(o.sched).1.Served? <==> SomebodyQueued(o)
  {
    GetConservesWork(o.sched);
  }

  /** A CPU without a process looks at the queues.  With nobody there it stays at the top of its loop,
      without a look at `done`, or comes to the recheck if it has just released a process; there it
      stops exactly if `done` is set, and else goes back to the top. */
  lemma LookingMoves(o: Os, c: nat)
    requires Inv(o) && c < |o.cpus| && o.cpus[c].proc.None?
    ensures var k, k' := o.cpus[c], CpuStep(o, c).0.cpus[c];
            && (k.mode.Recheck? ==> k' == Cpu(if o.done then Stopped else Top, None, 0))
            && ((k.mode.Top? || k.mode.Fetch?) && SomebodyQueued(o) ==>
                  && k'.mode.Recheck? && k'.timeLeft == 0 && k'.proc.Some?
                  && exists l :: 0 <= l < MAX_PRIO && k'.proc.value in o.sched.ready[l])
            && ((k.mode.Top? || k.mode.Fetch?) && !SomebodyQueued(o) ==>
                  k' == Cpu(if k.mode.Top? then Top else Recheck, None, 0))
            && (k.mode.Stopped? ==> k' == k)
  {
    assert ModeFits(o.cpus[c]);
    ServedIfQueued(o);
    if SomebodyQueued(o) { GetMoves(o); }
    hide Get, Inv;
  }

  /** A CPU with a process releases it at the top of the loop if it has run to its end or its time is
      up, and else runs one instruction. */
  lemma HoldingMoves(o: Os, c: nat)
    requires Inv(o) && c < |o.cpus| && o.cpus[c].proc.Some?
    ensures var k, k' := o.cpus[c], CpuStep(o, c).0.cpus[c]; var p := k.proc.value;
            && (k.mode.Top? && (Pc(o, p) == p.size || k.timeLeft == 0) ==> k' == Cpu(Fetch, None, 0))
            && (k.mode.Top? && Pc(o, p) == p.size ==> CpuStep(o, c).0.freed == o.freed + {p})
            && (k.mode.Top? && Pc(o, p) != p.size && k.timeLeft != 0 ==> k' == Cpu(Recheck, Some(p), k.timeLeft))
            && (k.mode.Recheck? ==>
                  k' == Cpu(Top, Some(p), (if k.timeLeft == 0 then o.timeSlot else k.timeLeft) - 1))
            && (!(k.mode.Top? && Pc(o, p) == p.size) ==> CpuStep(o, c).0.freed == o.freed)
  {
    assert ModeFits(o.cpus[c]);
    hide Inv, PutBack, Finish, Get;
  }

  /** The loader admits the next program with its counter at 0, and once all are admitted its next
      round, and no other, sets `done`. */
  lemma LoaderMoves(o: Os)
    requires Inv(o)
    ensures var o' := LoaderStep(o);
            if o.loaded < |o.programs| then
              var p := o.programs[o.loaded];
              && o'.loaded == o.loaded + 1 && o'.done == o.done && o'.pc == o.pc[p.pid := 0]
              && (forall l: nat :: BelongsTo(p, l) ==> Joins(o.sched.ready, o'.sched.ready, l, p))
              && o' == o.(loaded := o'.loaded, pc := o'.pc, sched := o.sched.(ready := o'.sched.ready))
            else o' == o.(done := true)
  {
    if o.loaded < |o.programs| {
      var p := o.programs[o.loaded];
      forall l: nat | BelongsTo(p, l)
        ensures Joins(o.sched.ready, LoaderStep(o).sched.ready, l, p)
        ensures Add(o.sched, p) == o.sched.(ready := Add(o.sched, p).ready)
      {
        AddJoins(o.sched, p, l);
      }
      LevelIsOwn(p);
      assert BelongsTo(p, Level(p));
    }
  }

  // ---- conservation ---------------------------------------------------------------

  /** In its own ready queue or held by a CPU. */
  ghost predicate Placed(o: Os, p: Proc)
    requires Valid(o.sched)
  {
    p in o.sched.ready[Level(p)] || Held(o, p)
  }

  /** The process that the section enqueues on a ready queue that is full. */
  ghost function Drops(o: Os, a: Actor): Option<Proc>
    requires Inv(o) && Enabled(o, a)
  {
    match a
    case LoaderTurn =>
      if o.loaded < |o.programs| && |o.sched.ready[Level(o.programs[o.loaded])]| >= MAX_QUEUE_SIZE then
        Some(o.programs[o.loaded])
      else None
    case CpuTurn(c) =>
      var k := o.cpus[c];
      if k.mode.Top? && k.proc.Some? && Pc(o, k.proc.value) != k.proc.value.size && k.timeLeft == 0
         && |o.sched.ready[Level(k.proc.value)]| >= MAX_QUEUE_SIZE then k.proc
      else None
  }

  /** Live, yet nowhere. */
  ghost predicate Astray(o: Os, p: Proc)
    requires Inv(o)
  {
    p in LiveSet(o) && !Placed(o, p)
  }

  lemma FetchPlaces(o: Os, c: nat, nobody: Mode, x: Proc)
    requires Inv(o) && c < |o.cpus| && o.cpus[c].proc.None? && (nobody.Top? || nobody.Recheck?)
    ensures Inv(Fetched(o, c, nobody)) && (Astray(Fetched(o, c, nobody), x) <==> Astray(o, x))
  {
    if Get(o.sched).1.Served? {
      GetMoves(o);
      GetSomebody(o, c, nobody);
    } else {
      GetNothing(o.sched);
      GetNobody(o, c, nobody);
    }
    hide Get, QueuesOk, HoldersOk, CountersOk, Held, Put;
  }

  lemma CpuPlaces(o: Os, c: nat, x: Proc)
    requires Inv(o) && c < |o.cpus|
    ensures Inv(CpuStep(o, c).0)
    ensures Astray(CpuStep(o, c).0, x) <==> Astray(o, x) || Drops(o, CpuTurn(c)) == Some(x)
  {
    var k := o.cpus[c];
    var o' := CpuStep(o, c).0;
    assert ModeFits(k);
    if k.proc.Some? { assert Holds(o, c, k.proc.value) && Held(o, k.proc.value) && k.proc.value in LiveSet(o); }
    match k.mode
    case Stopped =>
    case Fetch => FetchPlaces(o, c, Recheck, x);
    case Top =>
      if k.proc.None? {
        FetchPlaces(o, c, Top, x);
      } else if Pc(o, k.proc.value) == k.proc.value.size {
        FinishKeeps(o, c);
      } else if k.timeLeft == 0 {
        PutBackKeeps(o, c);
        PutMembers(o.sched.ready[Level(k.proc.value)], k.proc.value);
      } else {
        LocalKeeps(o, c, k.(mode := Recheck), o.pc);
      }
    case Recheck =>
      assert o' == SetCpu(o.(pc := o'.pc), c, o'.cpus[c]);
      LocalKeeps(o, c, o'.cpus[c], o'.pc);
  }

  /** A live process goes astray exactly when a section enqueues it on a full ready queue; and then
      no section finds it again. */
  lemma ActPlaces(o: Os, a: Actor, x: Proc)
    requires Inv(o) && Enabled(o, a)
    ensures Inv(Act(o, a).0)
    ensures Astray(Act(o, a).0, x) <==> Astray(o, x) || Drops(o, a) == Some(x)
  {
    match a
    case CpuTurn(c) => CpuPlaces(o, c, x);
    case LoaderTurn =>
      LoaderKeeps(o);
      if o.loaded < |o.programs| {
        var p := o.programs[o.loaded];
        NewPid(o, p);
        PutMembers(o.sched.ready[Level(p)], p);
      }
  }

  /** Some section of the run enqueues p on a full ready queue. */
  ghost predicate Dropped(o: Os, run: seq<Actor>, p: Proc)
    requires Inv(o) && Runnable(o, run)
    decreases |run|
  {
    run != [] &&
    (ActKeeps(o, run[0]); Drops(o, run[0]) == Some(p) || Dropped(Act(o, run[0]).0, run[1..], p))
  }

  lemma {:induction false} RunPlaces(o: Os, run: seq<Actor>, p: Proc)
    requires Inv(o) && Runnable(o, run)
    ensures Astray(Final(o, run), p) <==> Astray(o, p) || Dropped(o, run, p)
    decreases |run|
  {
    if run == [] {
    } else {
      hide Inv, Astray, Act;
      ActKeeps(o, run[0]);
      ActPlaces(o, run[0], p);
      RunPlaces(Act(o, run[0]).0, run[1..], p);
    }
  }

  /** Conservation, over every run of any number of processes on any number of CPUs.  An admitted
      process that has not been freed is in exactly one place: once in its own ready queue, or
      held by exactly one CPU, or dropped, which happened exactly when some section enqueued it
      on a full queue.  The running list names each held process at most once and nobody else,
      and with at most 50 CPUs all of them.  A freed process has run to its end. */
  lemma ProcessesAreConserved(o: Os, run: seq<Actor>, p: Proc)
    requires Inv(o) && Runnable(o, run) && !Astray(o, p)
    ensures var o' := Final(o, run);
            && (forall l :: 0 <= l < 140 && p in o'.sched.ready[l] ==> l == Level(p))
            && multiset(o'.sched.ready[Level(p)])[p] + (if Held(o', p) then 1 else 0)
               + (if Dropped(o, run, p) then 1 else 0)
               == (if p in o'.programs[..o'.loaded] && p !in o'.freed then 1 else 0)
            && (forall c: nat, d: nat :: Holds(o', c, p) && Holds(o', d, p) ==> c == d)
            && multiset(o'.sched.running)[p] <= (if Held(o', p) then 1 else 0)
            && (|o'.cpus| <= 50 ==> multiset(o'.sched.running)[p] == if Held(o', p) then 1 else 0)
            && (p in o'.freed ==> Pc(o', p) == p.size)
  {
    var o' := Final(o, run);
    RunPlaces(o, run, p);
    hide Final, Dropped;
    Occurrences(o'.sched.ready[Level(p)], p);
    Occurrences(o'.sched.running, p);
    assert p in LiveSet(o') <==> p in o'.programs[..o'.loaded] && p !in o'.freed;
  }

  lemma QueueIsOfItsLevel(o: Os, l: nat, x: Proc)
    requires Inv(o) && l < MAX_PRIO && x in o.sched.ready[l]
    ensures Distinct(o.sched.ready[l]) && Level(x) == l && x in LiveSet(o) && !Held(o, x)
  {
  }

  /** A process is dropped only beside 50 other live ones of its level, all in its queue. */
  lemma DropNeedsFifty(o: Os, a: Actor, p: Proc)
    requires Inv(o) && Enabled(o, a) && Drops(o, a) == Some(p)
    ensures 50 <= |o.sched.ready[Level(p)]| <= |LiveSet(o) - {p}|
    ensures forall x :: x in o.sched.ready[Level(p)] ==> x != p && Level(x) == Level(p) && x in LiveSet(o)
  {
    var q := o.sched.ready[Level(p)];
    if a.CpuTurn? {
      assert Holds(o, a.c, p) && Held(o, p);
    } else {
      NewPid(o, p);
    }
    assert |q| >= MAX_QUEUE_SIZE;
    hide Inv, Held, Drops;
    forall x | x in q
      ensures x != p && Level(x) == Level(p) && x in LiveSet(o)
    {
      QueueIsOfItsLevel(o, Level(p), x);
    }
    QueueIsOfItsLevel(o, Level(p), q[0]);
    forall i | 0 <= i < |q|
      ensures q[i] in LiveSet(o) - {p}
    {
      assert q[i] in q;
    }
    DistinctFits(q, LiveSet(o) - {p});
  }

  /** At no moment of the run are more than 50 processes live. */
  ghost predicate Uncrowded(o: Os, run: seq<Actor>)
    requires Inv(o) && Runnable(o, run)
    decreases |run|
  {
    |LiveSet(o)| <= 50 &&
    (run != [] ==> (ActKeeps(o, run[0]); Uncrowded(Act(o, run[0]).0, run[1..])))
  }

  /** So among at most 50 live processes nobody is ever dropped. */
  lemma {:induction false} UncrowdedDropsNobody(o: Os, run: seq<Actor>, p: Proc)
    requires Inv(o) && Runnable(o, run) && Uncrowded(o, run)
    ensures !Dropped(o, run, p)
    decreases |run|
  {
    if run == [] {
    } else {
      ActKeeps(o, run[0]);
      UncrowdedDropsNobody(Act(o, run[0]).0, run[1..], p);
      if Drops(o, run[0]) == Some(p) {
        DropNeedsFifty(o, run[0], p);
        CrowdAfterDrop(o, run[0], p);
        assert false;
      }
    }
  }

  lemma SameOthers(o: Os, a: Actor, p: Proc)
    requires Inv(o) && Enabled(o, a) && Drops(o, a) == Some(p)
    ensures var o' := Act(o, a).0;
            && o'.freed == o.freed && o'.programs == o.programs
            && o'.loaded <= |o'.programs| && o.loaded <= |o.programs|
            && p in o'.programs[..o'.loaded] && p !in o'.freed
            && forall x :: x != p ==> (x in o'.programs[..o'.loaded] <==> x in o.programs[..o.loaded])
  {
    if a.LoaderTurn? {
      NewPid(o, p);
      assert o.programs[..o.loaded + 1][o.loaded] == p;
    } else {
      assert Holds(o, a.c, p) && p in LiveSet(o);
    }
    hide Inv, PutBack;
  }

  lemma CrowdAfterDrop(o: Os, a: Actor, p: Proc)
    requires Inv(o) && Enabled(o, a) && Drops(o, a) == Some(p)
    ensures Inv(Act(o, a).0) && |LiveSet(Act(o, a).0)| > MAX_QUEUE_SIZE
  {
    hide Act, Drops, Inv;
    ActKeeps(o, a);
    SameOthers(o, a, p);
    DropNeedsFifty(o, a, p);
    var o' := Act(o, a).0;
    assert LiveSet(o) - {p} == LiveSet(o') - {p};
    assert LiveSet(o') == (LiveSet(o') - {p}) + {p};
  }

  function Loads(n: nat): seq<Actor> {
    if n == 0 then [] else [LoaderTurn] + Loads(n - 1)
  }

  /** And it does happen: of 51 processes of one level, loaded before a CPU runs, the last is lost. */
  lemma FiftyFirstIsDropped(timeSlot: int, programs: seq<Proc>, ncpus: nat, l: nat)
    requires DistinctPids(programs) && |programs| > 50
    requires forall i :: 0 <= i < |programs| ==> Level(programs[i]) == l
    ensures var o := Boot(timeSlot, programs, ncpus);
            && Inv(o) && Runnable(o, Loads(51))
            && Dropped(o, Loads(51), programs[50])
  {
    BootInv(timeSlot, programs, ncpus);
    assert l == Level(programs[0]);
    LoadsFill(Boot(timeSlot, programs, ncpus), l);
  }

  lemma {:induction false} LoadsFill(o: Os, l: nat)
    requires Inv(o) && l < MAX_PRIO && |o.programs| > MAX_QUEUE_SIZE
    requires forall i :: 0 <= i < |o.programs| ==> Level(o.programs[i]) == l
    requires |o.sched.ready[l]| == o.loaded <= MAX_QUEUE_SIZE
    ensures var run := Loads(MAX_QUEUE_SIZE + 1 - o.loaded);
            Runnable(o, run) && Dropped(o, run, o.programs[MAX_QUEUE_SIZE])
    decreases MAX_QUEUE_SIZE - o.loaded
  {
    var run := Loads(MAX_QUEUE_SIZE + 1 - o.loaded);
    var o1 := LoaderStep(o);
    assert run[0] == LoaderTurn && run[1..] == Loads(MAX_QUEUE_SIZE - o.loaded);
    hide Inv, Loads;
    ActKeeps(o, LoaderTurn);
    if o.loaded < MAX_QUEUE_SIZE {
      LoadsFill(o1, l);
    } else {
      NoLoads();
      assert Drops(o, LoaderTurn) == Some(o.programs[MAX_QUEUE_SIZE]);
    }
  }

  lemma NoLoads()
    ensures Loads(0) == []
  {
  }

  // ---- execution --------------------------------------------------------------------

  /** The instructions of p in a trace, in order. */
  function Instructions(t: seq<Event>, p: Proc): seq<nat> {
    if t == [] then [] else (if t[0].Ran? && t[0].p == p then [t[0].at] else []) + Instructions(t[1..], p)
  }

  function Range(a: nat, b: nat): (r: seq<nat>)
    ensures a <= b ==> |r| == b - a && forall i :: 0 <= i < |r| ==> r[i] == a + i
    decreases b - a
  {
    if a < b then [a] + Range(a + 1, b) else []
  }

  lemma {:induction false} InstructionsConcat(t: seq<Event>, u: seq<Event>, p: Proc)
    ensures Instructions(t + u, p) == Instructions(t, p) + Instructions(u, p)
  {
    if t == [] {
      assert t + u == u;
    } else {
      assert (t + u)[1..] == t[1..] + u;
      InstructionsConcat(t[1..], u, p);
    }
  }

  lemma RangeConcat(a: nat, b: nat, c: nat)
    requires a <= b <= c
    ensures Range(a, b) + Range(b, c) == Range(a, c)
  {
  }

  /** The next instruction of p, 0 before it is loaded. */
  function Progress(o: Os, p: Proc): nat
    requires o.loaded <= |o.programs|
  {
    if p in o.programs[..o.loaded] then Pc(o, p) else 0
  }

  lemma SingleEvents(c: nat, q: Proc, at: nat, ran: seq<Event>, p: Proc)
    ensures Instructions([Ran(c, q, at)], p) == if q == p then Range(at, at + 1) else []
    ensures Instructions([Dispatched(c, q)] + ran, p) == Instructions(ran, p)
    ensures Instructions([Released(c, q)], p) == []
    ensures Range(at, at) == []
  {
    assert ([Dispatched(c, q)] + ran)[1..] == ran;
  }

  /** What one section of CPU c does to program counters. */
  lemma CpuPc(o: Os, c: nat)
    requires Inv(o) && c < |o.cpus|
    ensures var (o', ev) := CpuStep(o, c); var k := o.cpus[c];
            && o'.programs == o.programs && o'.loaded == o.loaded && o'.timeSlot == o.timeSlot
            && (if k.mode.Recheck? && k.proc.Some? && Pc(o, k.proc.value) < k.proc.value.size then
                  var p := k.proc.value; var at := Pc(o, p);
                  && o'.pc == o.pc[p.pid := at + 1]
                  && (ev == [Ran(c, p, at)] || ev == [Dispatched(c, p)] + [Ran(c, p, at)])
                else o'.pc == o.pc && forall e :: e in ev ==> !e.Ran?)
  {
    hide Inv, Get, PutBack, Finish;
  }

  lemma {:induction false} NothingRan(t: seq<Event>, p: Proc)
    requires forall e :: e in t ==> !e.Ran?
    ensures Instructions(t, p) == []
  {
    if t == [] {
    } else {
      NothingRan(t[1..], p);
    }
  }

  lemma ActProgress(o: Os, a: Actor, p: Proc)
    requires Inv(o) && Enabled(o, a) && p in o.programs
    ensures var (o', ev) := Act(o, a);
            && o'.loaded <= |o'.programs| && o'.programs == o.programs
            && Progress(o, p) <= Progress(o', p) && Instructions(ev, p) == Range(Progress(o, p), Progress(o', p))
  {
    match a
    case LoaderTurn =>
      if o.loaded < |o.programs| { NewPid(o, o.programs[o.loaded]); }
    case CpuTurn(c) =>
      CpuPc(o, c);
      var k := o.cpus[c];
      if k.mode.Recheck? && k.proc.Some? && Pc(o, k.proc.value) < k.proc.value.size {
        var q := k.proc.value;
        HolderIsLive(o, c, q);
        SingleEvents(c, q, Pc(o, q), [Ran(c, q, Pc(o, q))], p);
        if p != q && p in o.programs[..o.loaded] { PidsDiffer(o.programs, o.loaded, p, q); }
      } else {
        NothingRan(CpuStep(o, c).1, p);
      }
  }

  lemma HolderIsLive(o: Os, c: nat, p: Proc)
    requires Inv(o) && Holds(o, c, p)
    ensures p in LiveSet(o) && p in o.programs[..o.loaded]
  {
  }

  /** Over any run, on whatever CPUs, a process executes its instructions once each and in order:
      exactly those between its program counter before and after. */
  lemma {:induction false} RunsInOrder(o: Os, run: seq<Actor>, p: Proc)
    requires Inv(o) && Runnable(o, run) && p in o.programs
    ensures Final(o, run).programs == o.programs
    ensures Progress(o, p) <= Progress(Final(o, run), p)
    ensures Instructions(Trace(o, run), p) == Range(Progress(o, p), Progress(Final(o, run), p))
    decreases |run|
  {
    if run == [] {
    } else {
      var (o1, ev) := Act(o, run[0]);
      ActKeeps(o, run[0]);
      ActProgress(o, run[0], p);
      RunsInOrder(o1, run[1..], p);
      InstructionsConcat(ev, Trace(o1, run[1..]), p);
      RangeConcat(Progress(o, p), Progress(o1, p), Progress(Final(o1, run[1..]), p));
    }
  }

  /** A freed process has executed each of its instructions exactly once, in order. */
  lemma FinishedMeansAllExecuted(timeSlot: int, programs: seq<Proc>, ncpus: nat, run: seq<Actor>, p: Proc)
    requires var o := Boot(timeSlot, programs, ncpus); Inv(o) && Runnable(o, run)
    ensures var o := Boot(timeSlot, programs, ncpus);
            p in Final(o, run).freed ==> Instructions(Trace(o, run), p) == Range(0, p.size)
  {
    var o := Boot(timeSlot, programs, ncpus);
    if p in Final(o, run).freed {
      FinalPrograms(o, run);
      assert p in Final(o, run).programs[..Final(o, run).loaded];
      RunsInOrder(o, run, p);
    }
  }

  lemma {:induction false} FinalPrograms(o: Os, run: seq<Actor>)
    requires Inv(o) && Runnable(o, run)
    ensures Final(o, run).programs == o.programs && Final(o, run).timeSlot == o.timeSlot
    decreases |run|
  {
    if run == [] {
    } else {
      ActKeeps(o, run[0]);
      ActLoads(o, run[0]);
      FinalPrograms(Act(o, run[0]).0, run[1..]);
    }
  }

  // ---- time slices --------------------------------------------------------------------

  /** Where a slice that starts at instruction a ends.  A time slot below 1 never runs out. */
  function SliceEnd(timeSlot: int, a: nat, size: nat): int {
    if timeSlot >= 1 && a + timeSlot < size then a + timeSlot else size
  }

  /** CPU c is within the slice of p that was, or is about to be, dispatched at instruction a. */
  ghost predicate InSlice(o: Os, c: nat, p: Proc, a: nat) {
    && Holds(o, c, p) && a < p.size
    && var k := o.cpus[c];
       || (k.mode.Recheck? && k.timeLeft == 0 && Pc(o, p) == a)
       || (&& (k.mode.Top? || (k.mode.Recheck? && k.timeLeft != 0 && Pc(o, p) < p.size))
           && a < Pc(o, p) <= SliceEnd(o.timeSlot, a, p.size) && k.timeLeft == o.timeSlot - (Pc(o, p) - a))
  }

  predicate Releases(ev: seq<Event>, c: nat, p: Proc) {
    Released(c, p) in ev
  }

  /** A section of another CPU, or of the loader, touches neither CPU c nor its process. */
  lemma OthersLeaveAlone(o: Os, act: Actor, c: nat, p: Proc)
    requires Inv(o) && Enabled(o, act) && Holds(o, c, p) && act != CpuTurn(c)
    ensures var (o', ev) := Act(o, act);
            && c < |o'.cpus| && o'.cpus[c] == o.cpus[c] && o'.timeSlot == o.timeSlot && Pc(o', p) == Pc(o, p)
            && !Releases(ev, c, p)
  {
    HolderIsLive(o, c, p);
    match act
    case LoaderTurn =>
      if o.loaded < |o.programs| { NewPid(o, o.programs[o.loaded]); }
    case CpuTurn(d) =>
      CpuPc(o, d);
      if o.cpus[d].proc.Some? {
        var q := o.cpus[d].proc.value;
        HolderIsLive(o, d, q);
        assert Holds(o, d, q) && q != p;
        PidsDiffer(o.programs, o.loaded, p, q);
      }
  }

  /** Any section of any thread leaves the slice going, unless it is the release, and that comes
      at the slice's end and not before. */
  lemma SliceStep(o: Os, act: Actor, c: nat, p: Proc, a: nat)
    requires Inv(o) && Enabled(o, act) && InSlice(o, c, p, a)
    ensures var (o', ev) := Act(o, act);
            if Releases(ev, c, p) then Pc(o, p) == SliceEnd(o.timeSlot, a, p.size) == Pc(o', p)
            else InSlice(o', c, p, a)
  {
    if act != CpuTurn(c) {
      OthersLeaveAlone(o, act, c, p);
    } else {
      OwnStep(o, c, p, a);
    }
  }

  lemma OwnStep(o: Os, c: nat, p: Proc, a: nat)
    requires c < |o.cpus| && Valid(o.sched) && InSlice(o, c, p, a)
    ensures var (o', ev) := CpuStep(o, c);
            if Releases(ev, c, p) then Pc(o, p) == SliceEnd(o.timeSlot, a, p.size) == Pc(o', p)
            else InSlice(o', c, p, a)
  {
    hide Get, PutBack, Finish, Valid;
    var (o', ev) := CpuStep(o, c);
    if o.cpus[c].mode.Top? && (Pc(o, p) == p.size || o.cpus[c].timeLeft == 0) {
      assert ev == [Released(c, p)];
    }
  }

  /** A run that ends with the first release of p by CPU c. */
  ghost predicate UntilRelease(o: Os, run: seq<Actor>, c: nat, p: Proc)
    requires Inv(o) && Runnable(o, run)
    decreases |run|
  {
    run != [] &&
    (ActKeeps(o, run[0]);
     if Releases(Act(o, run[0]).1, c, p) then |run| == 1 else UntilRelease(Act(o, run[0]).0, run[1..], c, p))
  }

  lemma {:induction false} ReleasedAtSliceEnd(o: Os, run: seq<Actor>, c: nat, p: Proc, a: nat)
    requires Inv(o) && Runnable(o, run) && InSlice(o, c, p, a) && UntilRelease(o, run, c, p)
    ensures Pc(Final(o, run), p) == SliceEnd(o.timeSlot, a, p.size)
    decreases |run|
  {
    var (o1, ev) := Act(o, run[0]);
    ActKeeps(o, run[0]);
    SliceStep(o, run[0], c, p, a);
    ActLoads(o, run[0]);
    if !Releases(ev, c, p) { ReleasedAtSliceEnd(o1, run[1..], c, p, a); }
  }

  /** From the dispatch of a process at instruction a < size to its release by the same CPU,
      exactly the instructions of its slice are executed, whatever the other threads do:
      min(time_slot, size - a) of them for a time slot of at least 1, else all that are left. */
  lemma DispatchRunsOneSlice(o: Os, run: seq<Actor>, c: nat, p: Proc)
    requires Inv(o) && Runnable(o, run) && Holds(o, c, p) && o.cpus[c].mode.Recheck? && o.cpus[c].timeLeft == 0
    requires Pc(o, p) < p.size && UntilRelease(o, run, c, p)
    ensures Instructions(Trace(o, run), p) == Range(Pc(o, p), SliceEnd(o.timeSlot, Pc(o, p), p.size))
  {
    ReleasedAtSliceEnd(o, run, c, p, Pc(o, p));
    HolderIsLive(o, c, p);
    RunsInOrder(o, run, p);
    LoadedStays(o, run, p);
  }

  lemma {:induction false} LoadedStays(o: Os, run: seq<Actor>, p: Proc)
    requires Inv(o) && Runnable(o, run) && p in o.programs[..o.loaded]
    ensures p in Final(o, run).programs[..Final(o, run).loaded]
    decreases |run|
  {
    if run == [] {
    } else {
      var o1 := Act(o, run[0]).0;
      ActKeeps(o, run[0]);
      ActLoads(o, run[0]);
      LoadedStays(o1, run[1..], p);
    }
  }

  lemma ActLoads(o: Os, a: Actor)
    requires Inv(o) && Enabled(o, a)
    ensures var o' := Act(o, a).0;
            && o'.programs == o.programs && o'.timeSlot == o.timeSlot && o.loaded <= o'.loaded <= |o.programs|
            && o.programs[..o.loaded] <= o'.programs[..o'.loaded]
  {
    if a.CpuTurn? { CpuPc(o, a.c); }
  }
}
