/** How many slots of time the simulator takes: while a process is queued or held, every slot runs
  an instruction, dispatches an empty program, or frees a process. */
module SlotBound {
  import opened ReadyQueue
  import opened Mlq
  import opened CpuLoop
  import opened CpuRuns
  import opened CpuProgress
  import opened SlotRuns

  /** CPU c has not finished its turn of the current slot. */
  predicate Pending(w: Sim, c: nat) {
    && c < |w.o.cpus| && c < |w.t.devs|
    && var d := w.t.devs[c];
       InTurn(w, c) || ((d.pc == T.Waiting || d.pc == T.Asleep) && d.slots < w.t.time)
  }

  /** It holds a process, or is about to look for one while somebody is queued. */
  ghost predicate WillFind(o: Os, c: nat) {
    && c < |o.cpus|
    && (o.cpus[c].proc.Some? || (SomebodyQueued(o) && (o.cpus[c].mode.Top? || o.cpus[c].mode.Fetch?)))
  }

  ghost predicate Prospect(w: Sim) {
    exists c: nat :: Pending(w, c) && WillFind(w.o, c)
  }

  /** A slot in which nothing is to be expected any more is already paid for. */
  ghost function Paid(w: Sim): nat {
    if Prospect(w) then 0 else 1
  }

  ghost predicate HasWork(o: Os) {
    SomebodyQueued(o) || exists c: nat :: c < |o.cpus| && o.cpus[c].proc.Some?
  }

  // ---- a section of a CPU -----------------------------------------------------------------

  lemma SomebodyIsServed(s: Sched)
    requires Valid(s) && exists l :: 0 <= l < |s.ready| && s.ready[l] != []
    ensures Get(s).1.Served?
  {
    GetConservesWork(s);
  }

  /** A CPU that will find a process and does not make progress at once still has it ahead of it. */
  lemma OwnHope(o: Os, c: nat)
    requires CpuLoop.Inv(o) && WillFind(o, c) && !o.cpus[c].mode.Stopped? && !Progresses(o, c)
    ensures var o' := CpuStep(o, c).0;
            WillFind(o', c) && (o'.cpus[c].mode.Recheck? || o'.cpus[c].mode.Fetch?)
  {
    var o' := CpuStep(o, c).0;
    assert ModeFits(o.cpus[c]);
    if o.cpus[c].proc.None? { SomebodyIsServed(o.sched); }
    hide Get, CpuLoop.Inv, Purge, Finish;
    if o.cpus[c].proc.Some? && o.cpus[c].timeLeft == 0 {
      assert o'.sched.ready[Level(o.cpus[c].proc.value)] != [];
    }
  }

  /** The queues become empty only when the last process is fetched. */
  lemma QueuesEmptied(o: Os, c: nat)
    requires CpuLoop.Inv(o) && c < |o.cpus| && SomebodyQueued(o)
    ensures var o' := CpuStep(o, c).0; SomebodyQueued(o') || (o'.cpus[c].mode.Recheck? && o'.cpus[c].proc.Some?)
  {
    var o' := CpuStep(o, c).0;
    var k := o.cpus[c];
    SomebodyIsServed(o.sched);
    hide Get, CpuLoop.Inv, Purge;
    var l :| 0 <= l < |o.sched.ready| && o.sched.ready[l] != [];
    if !k.mode.Fetch? && !(k.mode.Top? && k.proc.None?) { assert o'.sched.ready[l] != []; }
  }

  /** A section of a CPU makes progress, or leaves some CPU with a process ahead of it. */
  lemma CpuKeepsHope(w: Sim, c: nat)
    requires SimInv(w) && CanTurn(w, CpuSection(c)) && Prospect(w) && !Progresses(w.o, c)
    ensures Prospect(TakeTurn(w, CpuSection(c)))
  {
    var w' := TakeTurn(w, CpuSection(c));
    var d: nat :| Pending(w, d) && WillFind(w.o, d);
    assert CpuInStep(w, c);
    CpuStepFrame(w.o, c);
    if d == c {
      OwnHope(w.o, c);
      hide CpuStep, SimInv, WillFind;
      assert Pending(w', c) && WillFind(w'.o, c);
    } else if w.o.cpus[d].proc.None? && !SomebodyQueued(w'.o) {
      QueuesEmptied(w.o, c);
      hide CpuStep, SimInv;
      assert Pending(w', c) && WillFind(w'.o, c);
    } else {
      hide CpuStep, SimInv;
      assert Pending(w', d) && WillFind(w'.o, d);
    }
  }

  lemma NoWorkFromNothing(o: Os, c: nat)
    requires CpuLoop.Inv(o) && c < |o.cpus| && !HasWork(o)
    ensures !HasWork(CpuStep(o, c).0)
  {
    assert o.cpus[c].proc.None?;
    ServedIfQueued(o);
    CpuStepFrame(o, c);
    LookingMoves(o, c);
    LookingFrame(o, c);
    hide CpuStep, Get, CpuLoop.Inv;
  }

  // ---- the bound ---------------------------------------------------------------------------

  /** At most the work of the admitted programs is left; and from the last admission on, the slots
      gone by and the work left together stay within that work. */
  ghost predicate Bounded(w: Sim)
    requires SimInv(w)
  {
    && Work(w.o, Slots) <= TotalWork(w.o.programs[..w.o.loaded], Slots)
    && (w.o.loaded == |w.o.programs| && HasWork(w.o) ==>
          w.t.time + Work(w.o, Slots) + Paid(w) <= Following(w) + TotalWork(w.o.programs, Slots))
  }

  lemma CpuStaysBounded(w: Sim, c: nat)
    requires SimInv(w) && Bounded(w) && CanTurn(w, CpuSection(c))
    ensures SimInv(TakeTurn(w, CpuSection(c))) && Bounded(TakeTurn(w, CpuSection(c)))
  {
    var w' := TakeTurn(w, CpuSection(c));
    TurnKeeps(w, CpuSection(c));
    CpuStepFrame(w.o, c);
    BusySectionWorks(w.o, c);
    if !HasWork(w.o) { NoWorkFromNothing(w.o, c); }
    if Prospect(w) && !Progresses(w.o, c) { CpuKeepsHope(w, c); }
    hide SimInv, CpuStep, Work, Prospect, HasWork, TotalWork, CpuLoop.Inv;
  }

  lemma {:induction false} TotalWorkAppend(ps: seq<Proc>, p: Proc, u: Unit)
    ensures TotalWork(ps + [p], u) == TotalWork(ps, u) + QueuedWork(p.size, u)
  {
    if ps == [] {
      assert [p][1..] == [];
    } else {
      assert (ps + [p])[1..] == ps[1..] + [p];
      TotalWorkAppend(ps[1..], p, u);
    }
  }

  /** The CPUs and the queues are the same, and so is what each CPU still has to do in this slot. */
  lemma SameProspects(w: Sim, w': Sim)
    requires w'.o.cpus == w.o.cpus && w'.o.sched.ready == w.o.sched.ready
    requires forall c: nat :: c < |w.o.cpus| ==> (Pending(w', c) <==> Pending(w, c))
    ensures Paid(w') == Paid(w) && (HasWork(w'.o) <==> HasWork(w.o))
  {
    hide Pending;
    assert forall c: nat :: WillFind(w'.o, c) <==> WillFind(w.o, c);
    hide WillFind;
    assert Prospect(w') ==> Prospect(w);
    assert Prospect(w) ==> Prospect(w');
  }

  lemma LoaderStaysBounded(w: Sim)
    requires SimInv(w) && Bounded(w) && CanTurn(w, LoaderSection)
    ensures SimInv(TakeTurn(w, LoaderSection)) && Bounded(TakeTurn(w, LoaderSection))
  {
    var w' := TakeTurn(w, LoaderSection);
    TurnKeeps(w, LoaderSection);
    assert w.o.programs[..|w.o.programs|] == w.o.programs;
    if w'.o.loaded > w.o.loaded {
      AdmissionStaysBounded(w);
    } else {
      SameProspects(w, w');
      LoaderLeavesWork(w.o);
    }
    hide SimInv, Work, TotalWork, Paid, HasWork;
  }

  lemma AdmissionStaysBounded(w: Sim)
    requires SimInv(w) && Bounded(w) && CanTurn(w, LoaderSection) && w.o.loaded < TakeTurn(w, LoaderSection).o.loaded
    ensures SimInv(TakeTurn(w, LoaderSection)) && Bounded(TakeTurn(w, LoaderSection))
  {
    AdmissionMoves(w);
    hide SimInv, TakeTurn, Work, TotalWork, Paid, HasWork, CpuLoop.Inv, QueuedWork;
    TurnKeeps(w, LoaderSection);
    LoaderWorks(w.o, Slots);
    OneMoreProgram(w.o.programs, w.o.loaded);
  }

  /** An admission happens in the slot that is running. */
  lemma AdmissionMoves(w: Sim)
    requires SimInv(w) && CanTurn(w, LoaderSection) && w.o.loaded < TakeTurn(w, LoaderSection).o.loaded
    ensures CpuLoop.Inv(w.o) && w.o.loaded < |w.o.programs|
    ensures var w' := TakeTurn(w, LoaderSection);
            && w'.o == LoaderStep(w.o) && w'.o.loaded == w.o.loaded + 1 && w'.o.programs == w.o.programs
            && w'.t == w.t && Following(w') == w.t.time + 1
  {
    assert CpuLoop.Inv(w.o);
    hide SimInv, CpuLoop.Inv;
    LoaderMoves(w.o);
  }

  lemma OneMoreProgram(ps: seq<Proc>, n: nat)
    requires n < |ps|
    ensures TotalWork(ps[..n + 1], Slots) == TotalWork(ps[..n], Slots) + QueuedWork(ps[n].size, Slots)
    ensures ps[..|ps|] == ps
  {
    assert ps[..n + 1] == ps[..n] + [ps[n]];
    TotalWorkAppend(ps[..n], ps[n], Slots);
  }

  lemma LoaderLeavesWork(o: Os)
    requires CpuLoop.Inv(o)
    ensures var o' := o.(done := true); Work(o', Slots) == Work(o, Slots)
  {
    var o' := o.(done := true);
    forall d | 0 <= d < |o.cpus|
      ensures CpuWork(o', d, Slots) == CpuWork(o, d, Slots)
    {
    }
    forall i | 0 <= i < o.loaded
      ensures QueueWork(o', o.programs[i], Slots) == QueueWork(o, o.programs[i], Slots)
    {
    }
    hide CpuWork, QueueWork;
    CpuSumSame(o, o', |o.cpus|, Slots);
    QueueSumSame(o, o', o.loaded, Slots);
  }

  lemma EndTurnStaysBounded(w: Sim, i: nat)
    requires SimInv(w) && Bounded(w) && CanTurn(w, EndTurn(i))
    ensures SimInv(TakeTurn(w, EndTurn(i))) && Bounded(TakeTurn(w, EndTurn(i)))
  {
    var w' := TakeTurn(w, EndTurn(i));
    TurnKeeps(w, EndTurn(i));
    assert T.DevOk(w.t, i);
    CallMoves(w.t, if Leaves(w, i) then T.Detach(i) else T.Arrive(i), i);
    hide T.Next, T.Inv, CpuLoop.Inv;
    forall c: nat | c < |w.o.cpus|
      ensures Pending(w', c) <==> Pending(w, c)
    {
    }
    SameProspects(w, w');
    hide SimInv, Work, TotalWork, Paid, HasWork;
  }

  /** While time stands still, a CPU that is yet to take its turn stays so. */
  lemma StillPending(w: Sim, s: T.Step, c: nat)
    requires SimInv(w) && CanTurn(w, TimerSection(s)) && T.Next(w.t, s).time == w.t.time && Pending(w, c)
    ensures Pending(TakeTurn(w, TimerSection(s)), c)
  {
    assert CpuInStep(w, c);
    TimerMoves(w.t, s, c);
    hide T.Next, T.Inv, CpuLoop.Inv;
  }

  /** When time moves, everybody has taken his turn. */
  lemma NobodyPending(w: Sim, s: T.Step, c: nat)
    requires SimInv(w) && CanTurn(w, TimerSection(s)) && T.Next(w.t, s).time != w.t.time
    ensures !Pending(w, c)
  {
    if c < |w.t.devs| {
      TimerMoves(w.t, s, c);
      assert T.DevOk(w.t, c);
      assert w.t.timer.Scan?;
    }
  }

  /** A new slot begins with a CPU that has something to do, if there is anything to do. */
  lemma NewSlotHasProspect(w: Sim, s: T.Step)
    requires SimInv(w) && CanTurn(w, TimerSection(s)) && T.Next(w.t, s).time != w.t.time
    requires HasWork(w.o) && w.o.loaded == |w.o.programs|
    ensures Prospect(TakeTurn(w, TimerSection(s)))
  {
    var w' := TakeTurn(w, TimerSection(s));
    TurnKeeps(w, TimerSection(s));
    if c: nat :| c < |w.o.cpus| && w.o.cpus[c].proc.Some? {
      FreshTurn(w, s, c);
      assert WillFind(w'.o, c);
    } else {
      FollowingPassed(w, w');
      assert NobodyForgotten(w') && AllAdmitted(w');
      var c: nat :| WillLook(w'.o, c);
      FreshTurn(w, s, c);
      assert WillFind(w'.o, c);
    }
  }

  /** The last admission is never in the future. */
  lemma FollowingPassed(w: Sim, w': Sim)
    requires SimInv(w) && SimInv(w') && w' == w.(t := w'.t) && w'.t.time == w.t.time + 1
    ensures Following(w') <= w'.t.time
  {
    var n := |w.o.cpus|;
    assert T.DevOk(w.t, n) && T.DevOk(w'.t, n);
  }

  lemma FreshTurn(w: Sim, s: T.Step, c: nat)
    requires SimInv(w) && CanTurn(w, TimerSection(s)) && T.Next(w.t, s).time != w.t.time
    requires c < |w.o.cpus| && !w.o.cpus[c].mode.Stopped?
    ensures w.o.cpus[c].mode.Top? && Pending(TakeTurn(w, TimerSection(s)), c)
  {
    TimerMoves(w.t, s, c);
    NobodyPending(w, s, c);
    assert CpuInStep(w, c) && T.DevOk(w.t, c);
    assert w.t.timer.Scan?;
  }

  lemma TimerStaysBounded(w: Sim, s: T.Step)
    requires SimInv(w) && Bounded(w) && CanTurn(w, TimerSection(s))
    ensures SimInv(TakeTurn(w, TimerSection(s))) && Bounded(TakeTurn(w, TimerSection(s)))
  {
    var w' := TakeTurn(w, TimerSection(s));
    TurnKeeps(w, TimerSection(s));
    TimerMoves(w.t, s, 0);
    if w'.t.time == w.t.time {
      if Prospect(w) {
        var c: nat :| Pending(w, c) && WillFind(w.o, c);
        StillPending(w, s, c);
        assert Prospect(w');
      }
    } else if HasWork(w.o) && w.o.loaded == |w.o.programs| {
      forall c: nat
        ensures !Pending(w, c)
      {
        NobodyPending(w, s, c);
      }
      assert !Prospect(w);
      NewSlotHasProspect(w, s);
    }
    hide SimInv, Work, TotalWork, Prospect, HasWork, T.Next;
  }

  lemma TurnStaysBounded(w: Sim, a: Turn)
    requires SimInv(w) && Bounded(w) && CanTurn(w, a)
    ensures SimInv(TakeTurn(w, a)) && Bounded(TakeTurn(w, a))
  {
    hide SimInv, Bounded;
    match a
    case CpuSection(c) => CpuStaysBounded(w, c);
    case LoaderSection => LoaderStaysBounded(w);
    case EndTurn(i) => EndTurnStaysBounded(w, i);
    case TimerSection(s) => TimerStaysBounded(w, s);
  }

  lemma {:induction false} RunStaysBounded(w: Sim, run: seq<Turn>)
    requires SimInv(w) && Bounded(w) && Playable(w, run)
    ensures Bounded(After(w, run))
    decreases |run|
  {
    if run == [] {
    } else {
      hide SimInv, TakeTurn, Bounded;
      TurnKeeps(w, run[0]);
      TurnStaysBounded(w, run[0]);
      RunStaysBounded(TakeTurn(w, run[0]), run[1..]);
    }
  }

  lemma StartUpBounded(timeSlot: int, programs: seq<Proc>, start: seq<nat>, ncpus: nat)
    requires SimInv(StartUp(timeSlot, programs, start, ncpus))
    ensures Bounded(StartUp(timeSlot, programs, start, ncpus))
  {
    var w := StartUp(timeSlot, programs, start, ncpus);
    NothingToDo(w.o, ncpus, Slots);
    assert !HasWork(w.o);
  }

  // ---- somebody's work is counted ------------------------------------------------------------

  lemma {:induction false} HeldIsCounted(o: Os, c: nat, n: nat)
    requires c < n <= |o.cpus| && o.cpus[c].proc.Some?
    ensures 0 < AllCpuWork(o, n, Slots)
  {
    if c == n - 1 {
    } else {
      HeldIsCounted(o, c, n - 1);
    }
  }

  lemma {:induction false} QueuedIsCounted(o: Os, k: nat, n: nat)
    requires Valid(o.sched) && k < n <= |o.programs| && o.programs[k] in o.sched.ready[Level(o.programs[k])]
    ensures 0 < AllQueueWork(o, n, Slots)
  {
    if k == n - 1 {
    } else {
      QueuedIsCounted(o, k, n - 1);
    }
  }

  lemma WorkIsCounted(o: Os)
    requires CpuLoop.Inv(o) && HasWork(o)
    ensures 0 < Work(o, Slots)
  {
    if c: nat :| c < |o.cpus| && o.cpus[c].proc.Some? {
      HeldIsCounted(o, c, |o.cpus|);
    } else {
      var l :| 0 <= l < |o.sched.ready| && o.sched.ready[l] != [];
      var p := SomebodyIsLive(o, l);
      var k :| 0 <= k < o.loaded && o.programs[k] == p;
      QueuedIsCounted(o, k, o.loaded);
    }
  }

  /** From the slot of the last admission on, the simulator has something to do for at most one slot
      per instruction and one per process, and one more per empty program. */
  lemma WorkEndsInTime(timeSlot: int, programs: seq<Proc>, start: seq<nat>, ncpus: nat, run: seq<Turn>)
    requires Simulation(timeSlot, programs, start, ncpus, run)
    ensures var w := Outcome(timeSlot, programs, start, ncpus, run);
            w.o.loaded == |programs| && HasWork(w.o) ==> w.t.time < Following(w) + TotalWork(programs, Slots)
  {
    var w := Outcome(timeSlot, programs, start, ncpus, run);
    StartUpInv(timeSlot, programs, start, ncpus);
    StartUpBounded(timeSlot, programs, start, ncpus);
    RunStaysBounded(StartUp(timeSlot, programs, start, ncpus), run);
    if HasWork(w.o) { WorkIsCounted(w.o); }
    hide Outcome, Simulation, Work, TotalWork, SimInv;
  }

  // ---- in terms of the start times ---------------------------------------------------------

  lemma {:induction false} AdmissionsByStart(w: Sim, s: nat, i: nat)
    requires AdmittedOnTime(w) && i < |w.admitted| && forall j :: 0 <= j < |w.start| ==> w.start[j] <= s
    ensures w.admitted[i] <= s + i
  {
    if i == 0 {
    } else {
      AdmissionsByStart(w, s, i - 1);
    }
  }

  /** While a program is not admitted, time has not gone beyond its slot. */
  lemma LoaderKeepsUp(w: Sim, s: nat)
    requires SimInv(w) && forall j :: 0 <= j < |w.start| ==> w.start[j] <= s
    ensures Following(w) <= s + w.o.loaded
    ensures w.o.loaded < |w.o.programs| ==> w.t.time <= s + w.o.loaded
  {
    var n := |w.o.cpus|;
    assert T.DevOk(w.t, n);
    if w.admitted == [] {
    } else {
      AdmissionsByStart(w, s, |w.admitted| - 1);
    }
    assert LoaderInStep(w);
    hide CpuLoop.Inv, T.Inv;
  }

  /** So in slot s + |programs| + work, with no start time after s, every program has been admitted,
      and has been freed after its last instruction, or was dropped. */
  lemma AllDoneInTime(timeSlot: int, programs: seq<Proc>, start: seq<nat>, ncpus: nat, run: seq<Turn>, s: nat)
    requires Simulation(timeSlot, programs, start, ncpus, run) && forall j :: 0 <= j < |start| ==> start[j] <= s
    ensures var w := Outcome(timeSlot, programs, start, ncpus, run);
            w.t.time >= s + |programs| + TotalWork(programs, Slots) ==>
              && w.o.loaded == |programs|
              && AllAccounted(Boot(timeSlot, programs, ncpus), Deeds(timeSlot, programs, start, ncpus, run))
  {
    var w := Outcome(timeSlot, programs, start, ncpus, run);
    if w.t.time >= s + |programs| + TotalWork(programs, Slots) {
      LoaderKeepsUp(w, s);
      WorkEndsInTime(timeSlot, programs, start, ncpus, run);
      assert w.o.loaded == |programs|;
      NoWorkMeansDone(w.o);
      AccountedMeansDone(timeSlot, programs, ncpus, Deeds(timeSlot, programs, start, ncpus, run));
    }
  }

  lemma NoWorkMeansDone(o: Os)
    requires CpuLoop.Inv(o) && !HasWork(o)
    ensures AllDoneWith(o)
  {
    assert forall l :: 0 <= l < |o.sched.ready| ==> o.sched.ready[l] == [];
  }
}
