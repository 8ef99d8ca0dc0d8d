/** The CPUs, the loader and the timer together (src/os.c, src/timer.c): CPU c is device c, and the
  loader is the device after the last CPU. */
module SlotRuns {
  import opened ReadyQueue
  import opened Mlq
  import opened CpuLoop
  import opened CpuRuns
  import opened CpuProgress
  import T = SlotTimer

  /** `start` are the programs' start times; `ending[i]` says that device i has finished its turn and
      is about to call next_slot or detach_event; `admitted` records the slot of every admission. */
  datatype Sim = Sim(o: Os, t: T.State, start: seq<nat>, ending: seq<bool>, admitted: seq<nat>)

  datatype Turn =
    | CpuSection(c: nat)
    | LoaderSection
    | EndTurn(i: nat)
    | TimerSection(s: T.Step)     // any step of the timer, or of a device inside next_slot

  /** Device i is outside timer.c and has not finished its turn. */
  predicate InTurn(w: Sim, i: nat) {
    i < |w.t.devs| == |w.ending| && w.t.devs[i].pc == T.Working && !w.ending[i]
  }

  predicate CanTurn(w: Sim, a: Turn) {
    match a
    case CpuSection(c) => c < |w.o.cpus| && InTurn(w, c)
    case LoaderSection => InTurn(w, |w.o.cpus|)
    case EndTurn(i) => i < |w.t.devs| == |w.ending| && w.ending[i] && w.t.devs[i].pc == T.Working
    case TimerSection(s) => T.Enabled(w.t, s) && !s.Arrive? && !s.Detach?
  }

  /** A stopped CPU, and the loader once it has set `done`, leave with detach_event. */
  predicate Leaves(w: Sim, i: nat) {
    if i < |w.o.cpus| then w.o.cpus[i].mode.Stopped? else w.o.done
  }

  predicate WellMade(w: Sim) {
    Valid(w.o.sched) && |w.start| == |w.o.programs| && |w.o.cpus| < |w.ending|
  }

  /** ld_routine between two calls of next_slot: wait for the start time, admit, or set `done`. */
  function Load(w: Sim): Sim
    requires WellMade(w)
  {
    var n := |w.o.cpus|;
    if w.o.loaded < |w.o.programs| && w.t.time < w.start[w.o.loaded] then w.(ending := w.ending[n := true])
    else
      w.(o := LoaderStep(w.o), ending := w.ending[n := true],
         admitted := if w.o.loaded < |w.o.programs| then w.admitted + [w.t.time] else w.admitted)
  }

  function TakeTurn(w: Sim, a: Turn): Sim
    requires CanTurn(w, a) && WellMade(w)
  {
    match a
    case CpuSection(c) =>
      var o' := CpuStep(w.o, c).0;
      w.(o := o', ending := w.ending[c := c < |o'.cpus| && (o'.cpus[c].mode.Top? || o'.cpus[c].mode.Stopped?)])
    case LoaderSection => Load(w)
    case EndTurn(i) =>
      w.(t := T.Next(w.t, if Leaves(w, i) then T.Detach(i) else T.Arrive(i)), ending := w.ending[i := false])
    case TimerSection(s) => w.(t := T.Next(w.t, s))
  }

  /** Every thread about to start. */
  function StartUp(timeSlot: int, programs: seq<Proc>, start: seq<nat>, ncpus: nat): Sim {
    Sim(Boot(timeSlot, programs, ncpus), T.Start(ncpus + 1), start, seq(ncpus + 1, _ => false), [])
  }

  // ---- the invariant ---------------------------------------------------------------------

  ghost predicate PartsOk(w: Sim) {
    && CpuLoop.Inv(w.o) && T.Inv(w.t)
    && |w.t.devs| == |w.ending| == |w.o.cpus| + 1 && |w.start| == |w.o.programs|
  }

  /** Inside next_slot a CPU is at the top of its loop; past detach_event it has stopped. */
  ghost predicate CpuInStep(w: Sim, c: nat)
    requires PartsOk(w) && c < |w.o.cpus|
  {
    var pc, mode := w.t.devs[c].pc, w.o.cpus[c].mode;
    && (w.ending[c] ==> pc == T.Working && (mode.Top? || mode.Stopped?))
    && (pc == T.Waiting || pc == T.Asleep ==> mode.Top?)
    && (pc == T.Detached ==> mode.Stopped?)
    && (mode.Stopped? ==> w.o.done && (w.ending[c] || pc == T.Detached))
  }

  /** One past the slot of the last admission. */
  function Following(w: Sim): nat {
    if w.admitted == [] then 0 else w.admitted[|w.admitted| - 1] + 1
  }

  function Max(a: nat, b: nat): nat {
    if a < b then b else a
  }

  /** The slot in which the next program is to be admitted. */
  function DueSlot(w: Sim): nat
    requires w.o.loaded < |w.start|
  {
    Max(w.start[w.o.loaded], Following(w))
  }

  ghost predicate LoaderInStep(w: Sim)
    requires PartsOk(w)
  {
    var n := |w.o.cpus|; var d := w.t.devs[n];
    && |w.admitted| == w.o.loaded
    && (w.ending[n] ==> d.pc == T.Working)
    && (d.pc == T.Detached ==> w.o.done)
    && (w.o.done ==> w.o.loaded == |w.o.programs| && (w.ending[n] || d.pc == T.Detached) && Following(w) <= w.t.time)
    && (!w.o.done && InTurn(w, n) ==>
          Following(w) <= d.slots && (w.o.loaded < |w.o.programs| ==> d.slots <= DueSlot(w)))
    && (!w.o.done && !InTurn(w, n) ==>
          Following(w) <= d.slots + 1 && (w.o.loaded < |w.o.programs| ==> d.slots < DueSlot(w)))
  }

  /** Process i was admitted in its own slot or the one after its predecessor's. */
  ghost predicate AdmittedOnTime(w: Sim) {
    && |w.admitted| <= |w.start|
    && forall i :: 0 <= i < |w.admitted| ==>
         w.admitted[i] == Max(w.start[i], if i == 0 then 0 else w.admitted[i - 1] + 1)
  }

  /** The last admission belongs to an earlier slot. */
  predicate AllAdmitted(w: Sim) {
    w.o.loaded == |w.o.programs| && Following(w) <= w.t.time
  }

  /** The CPU will look at the queues again before it stops. */
  predicate WillLook(o: Os, c: nat) {
    c < |o.cpus| && !o.cpus[c].mode.Stopped? && !(o.cpus[c].mode.Recheck? && o.cpus[c].proc.None?)
  }

  /** Once the last admission is over, whoever is queued has a CPU that will look for it. */
  ghost predicate NobodyForgotten(w: Sim) {
    AllAdmitted(w) && SomebodyQueued(w.o) ==> exists c: nat :: WillLook(w.o, c)
  }

  ghost predicate SimInv(w: Sim) {
    && PartsOk(w) && 0 < |w.o.cpus|
    && (forall c :: 0 <= c < |w.o.cpus| ==> CpuInStep(w, c))
    && LoaderInStep(w) && AdmittedOnTime(w) && NobodyForgotten(w)
  }

  lemma StartUpInv(timeSlot: int, programs: seq<Proc>, start: seq<nat>, ncpus: nat)
    requires DistinctPids(programs) && |start| == |programs| && 0 < ncpus
    ensures SimInv(StartUp(timeSlot, programs, start, ncpus))
  {
    BootInv(timeSlot, programs, ncpus);
    T.StartInv(ncpus + 1);
  }

  // ---- what a step of the timer does to a device ----------------------------------------------

  /** Device d became d' by steps that are not its own calls. */
  predicate DeviceMoves(d: T.Dev, d': T.Dev) {
    && (d.pc == T.Working ==> d' == d)
    && (d.pc == T.Detached ==> d'.pc == T.Detached)
    && (d.pc == T.Waiting || d.pc == T.Asleep ==>
          || ((d'.pc == T.Waiting || d'.pc == T.Asleep) && d'.slots == d.slots)
          || (d'.pc == T.Working && d'.slots == d.slots + 1))
  }

  lemma TimerMoves(t: T.State, s: T.Step, i: nat)
    requires T.Inv(t) && T.Enabled(t, s) && !s.Arrive? && !s.Detach? && i < |t.devs|
    ensures var t' := T.Next(t, s);
            && T.Inv(t') && |t'.devs| == |t.devs| && DeviceMoves(t.devs[i], t'.devs[i])
            && (t'.time == t.time || (t'.time == t.time + 1 && T.Arrived(t.devs[i])))
            && (t'.devs[i].pc == T.Working ==> t'.devs[i].slots == t'.time)
  {
    T.StepKeepsInv(t, s);
    assert T.DevOk(t, i) && T.DevOk(T.Next(t, s), i);
  }

  lemma CallMoves(t: T.State, s: T.Step, i: nat)
    requires T.Inv(t) && T.Enabled(t, s) && (s == T.Arrive(i) || s == T.Detach(i))
    ensures var t' := T.Next(t, s);
            && T.Inv(t') && |t'.devs| == |t.devs| && t'.time == t.time
            && t'.devs[i].pc == (if s.Arrive? then T.Waiting else T.Detached) && t'.devs[i].slots == t.devs[i].slots
            && forall j :: 0 <= j < |t.devs| && j != i ==> t'.devs[j] == t.devs[j]
  {
    T.StepKeepsInv(t, s);
  }

  // ---- every turn keeps the invariant -------------------------------------------------------

  /** A section of a CPU changes no other CPU, loads nothing, and does not set `done`. */
  lemma CpuStepFrame(o: Os, c: nat)
    requires CpuLoop.Inv(o) && c < |o.cpus|
    ensures var o' := CpuStep(o, c).0;
            && CpuLoop.Inv(o') && |o'.cpus| == |o.cpus| && o'.done == o.done
            && o'.programs == o.programs && o'.loaded == o.loaded
            && (forall d :: 0 <= d < |o.cpus| && d != c ==> o'.cpus[d] == o.cpus[d])
  {
    CpuKeeps(o, c);
    hide Get, PutBack, Finish, CpuLoop.Inv;
  }

  /** It stops only when it holds nothing and `done` is set. */
  lemma CpuStepStops(o: Os, c: nat)
    requires CpuLoop.Inv(o) && c < |o.cpus| && !o.cpus[c].mode.Stopped? && CpuStep(o, c).0.cpus[c].mode.Stopped?
    ensures o.done && !WillLook(o, c) && CpuStep(o, c).0.sched == o.sched
  {
    hide Get, PutBack, Finish, CpuLoop.Inv;
  }

  lemma NobodyMeansEmpty(s: Sched)
    requires Valid(s) && Get(s).1.Nobody?
    ensures forall l :: 0 <= l < |Get(s).0.ready| ==> Get(s).0.ready[l] == []
  {
    GetConservesWork(s);
    GetNothing(s);
  }

  /** It comes to hold nothing after a look at the queues only if all of them were empty. */
  lemma CpuStepFindsNobody(o: Os, c: nat)
    requires CpuLoop.Inv(o) && c < |o.cpus|
    requires CpuStep(o, c).0.cpus[c].mode.Recheck? && CpuStep(o, c).0.cpus[c].proc.None?
    ensures !SomebodyQueued(CpuStep(o, c).0)
  {
    assert o.cpus[c].mode.Fetch?;
    assert Get(o.sched).1.Nobody?;
    NobodyMeansEmpty(o.sched);
    assert CpuStep(o, c).0.sched == Get(o.sched).0;
    hide Get, CpuStep, CpuLoop.Inv;
  }

  lemma CpuStepForgetsNobody(o: Os, c: nat)
    requires CpuLoop.Inv(o) && c < |o.cpus| && !o.cpus[c].mode.Stopped?
    requires SomebodyQueued(o) ==> exists d: nat :: WillLook(o, d)
    ensures SomebodyQueued(CpuStep(o, c).0) ==> exists d: nat :: WillLook(CpuStep(o, c).0, d)
  {
    var o' := CpuStep(o, c).0;
    CpuStepFrame(o, c);
    if SomebodyQueued(o') && !WillLook(o', c) {
      if o'.cpus[c].mode.Stopped? {
        CpuStepStops(o, c);
        hide CpuStep;
        var d: nat :| WillLook(o, d);
        assert WillLook(o', d);
      } else {
        CpuStepFindsNobody(o, c);
      }
    }
  }

  lemma CpuTurnKeeps(w: Sim, c: nat)
    requires SimInv(w) && CanTurn(w, CpuSection(c))
    ensures SimInv(TakeTurn(w, CpuSection(c)))
  {
    var w' := TakeTurn(w, CpuSection(c));
    assert CpuInStep(w, c);
    CpuStepFrame(w.o, c);
    if w'.o.cpus[c].mode.Stopped? { CpuStepStops(w.o, c); }
    if AllAdmitted(w) { CpuStepForgetsNobody(w.o, c); }
    hide CpuStep, CpuLoop.Inv, SomebodyQueued, WillLook;
    forall d | 0 <= d < |w.o.cpus|
      ensures CpuInStep(w', d)
    {
      assert CpuInStep(w, d);
    }
  }

  lemma LoaderTurnKeeps(w: Sim)
    requires SimInv(w) && CanTurn(w, LoaderSection)
    ensures SimInv(TakeTurn(w, LoaderSection))
  {
    var w' := TakeTurn(w, LoaderSection);
    var n := |w.o.cpus|;
    assert T.DevOk(w.t, n);
    LoaderKeeps(w.o);
    hide CpuLoop.Inv;
    forall d | 0 <= d < n
      ensures CpuInStep(w', d)
    {
      assert CpuInStep(w, d);
    }
    forall d: nat
      ensures WillLook(w'.o, d) <==> WillLook(w.o, d)
    {
    }
  }

  lemma EndTurnKeeps(w: Sim, i: nat)
    requires SimInv(w) && CanTurn(w, EndTurn(i))
    ensures SimInv(TakeTurn(w, EndTurn(i)))
  {
    var w' := TakeTurn(w, EndTurn(i));
    var s := if Leaves(w, i) then T.Detach(i) else T.Arrive(i);
    CallMoves(w.t, s, i);
    hide CpuLoop.Inv, T.Inv, T.Next;
    forall d | 0 <= d < |w.o.cpus|
      ensures CpuInStep(w', d)
    {
      assert CpuInStep(w, d);
    }
  }

  /** At the end of a slot every CPU that has not stopped is at the top of its loop. */
  lemma SlotEndForgetsNobody(w: Sim)
    requires SimInv(w) && !w.o.done && forall i :: 0 <= i < |w.t.devs| ==> T.Arrived(w.t.devs[i])
    ensures WillLook(w.o, 0)
  {
    assert CpuInStep(w, 0) && T.DevOk(w.t, 0);
  }

  /** The loader through a step of the timer. */
  lemma LoaderStaysInStep(w: Sim, w': Sim)
    requires PartsOk(w) && PartsOk(w') && LoaderInStep(w) && w' == w.(t := w'.t) && w.t.time <= w'.t.time
    requires DeviceMoves(w.t.devs[|w.o.cpus|], w'.t.devs[|w.o.cpus|])
    ensures LoaderInStep(w')
  {
    hide CpuLoop.Inv, T.Inv;
  }

  lemma TimerTurnKeeps(w: Sim, s: T.Step)
    requires SimInv(w) && CanTurn(w, TimerSection(s))
    ensures SimInv(TakeTurn(w, TimerSection(s)))
  {
    var w' := TakeTurn(w, TimerSection(s));
    var n := |w.o.cpus|;
    forall i | 0 <= i < |w.t.devs|
      ensures DeviceMoves(w.t.devs[i], w'.t.devs[i]) && (w'.t.time != w.t.time ==> T.Arrived(w.t.devs[i]))
    {
      TimerMoves(w.t, s, i);
    }
    TimerMoves(w.t, s, n);
    if w'.t.time != w.t.time && !w.o.done { SlotEndForgetsNobody(w); }
    hide CpuLoop.Inv, T.Inv, T.Next, SomebodyQueued, WillLook, LoaderInStep;
    LoaderStaysInStep(w, w');
    forall d | 0 <= d < n
      ensures CpuInStep(w', d)
    {
      assert CpuInStep(w, d);
    }
    assert LoaderInStep(w) && (w.o.done ==> Following(w) <= w.t.time) by { DoneIsSettled(w); }
  }

  lemma DoneIsSettled(w: Sim)
    requires PartsOk(w) && LoaderInStep(w)
    ensures w.o.done ==> AllAdmitted(w)
  {
  }

  /** The programs, their start times and the CPUs are the same. */
  predicate SameScene(w: Sim, w': Sim) {
    w'.start == w.start && w'.o.programs == w.o.programs && |w'.o.cpus| == |w.o.cpus|
  }

  /** Every turn of every thread keeps the invariant. */
  lemma TurnKeeps(w: Sim, a: Turn)
    requires SimInv(w) && CanTurn(w, a)
    ensures SimInv(TakeTurn(w, a)) && SameScene(w, TakeTurn(w, a))
  {
    if a.CpuSection? { CpuStepFrame(w.o, a.c); }
    hide SimInv, CpuStep;
    match a
    case CpuSection(c) => CpuTurnKeeps(w, c);
    case LoaderSection => LoaderTurnKeeps(w);
    case EndTurn(i) => EndTurnKeeps(w, i);
    case TimerSection(s) => TimerTurnKeeps(w, s);
  }

  // ---- runs ----------------------------------------------------------------------------

  ghost predicate Playable(w: Sim, run: seq<Turn>)
    requires SimInv(w)
    decreases |run|
  {
    run == [] || (CanTurn(w, run[0]) && (TurnKeeps(w, run[0]); Playable(TakeTurn(w, run[0]), run[1..])))
  }

  ghost function After(w: Sim, run: seq<Turn>): (w': Sim)
    requires SimInv(w) && Playable(w, run)
    ensures SimInv(w') && SameScene(w, w')
    decreases |run|
  {
    if run == [] then w else
      TurnKeeps(w, run[0]);
      After(TakeTurn(w, run[0]), run[1..])
  }

  lemma FirstTurn(w: Sim, run: seq<Turn>)
    requires SimInv(w) && Playable(w, run) && run != []
    ensures WellMade(w) && CanTurn(w, run[0]) && SimInv(TakeTurn(w, run[0])) && Playable(TakeTurn(w, run[0]), run[1..])
    ensures After(w, run) == After(TakeTurn(w, run[0]), run[1..])
  {
    assert WellMade(w);
    hide SimInv, CanTurn, TakeTurn;
    TurnKeeps(w, run[0]);
  }

  lemma NoTurn(w: Sim)
    requires SimInv(w)
    ensures Playable(w, []) && After(w, []) == w
  {
    hide SimInv;
  }

  lemma OneMoreTurn(w: Sim, a: Turn, rest: seq<Turn>)
    requires SimInv(w) && CanTurn(w, a) && SimInv(TakeTurn(w, a)) && Playable(TakeTurn(w, a), rest)
    ensures Playable(w, [a] + rest) && After(w, [a] + rest) == After(TakeTurn(w, a), rest)
  {
    hide SimInv, CanTurn, TakeTurn;
    assert ([a] + rest)[1..] == rest;
  }

  /** The sections of CPUs and loader in a turn, and the calls and sections inside timer.c. */
  function ActorsOf(w: Sim, a: Turn): seq<Actor>
    requires |w.start| == |w.o.programs|
  {
    match a
    case CpuSection(c) => [CpuTurn(c)]
    case LoaderSection => if w.o.loaded < |w.o.programs| && w.t.time < w.start[w.o.loaded] then [] else [LoaderTurn]
    case _ => []
  }

  function TimerStepsOf(w: Sim, a: Turn): seq<T.Step> {
    match a
    case EndTurn(i) => [if Leaves(w, i) then T.Detach(i) else T.Arrive(i)]
    case TimerSection(s) => [s]
    case _ => []
  }

  ghost function Actors(w: Sim, run: seq<Turn>): seq<Actor>
    requires SimInv(w) && Playable(w, run)
    decreases |run|
  {
    if run == [] then [] else
      TurnKeeps(w, run[0]);
      ActorsOf(w, run[0]) + Actors(TakeTurn(w, run[0]), run[1..])
  }

  ghost function TimerSteps(w: Sim, run: seq<Turn>): seq<T.Step>
    requires SimInv(w) && Playable(w, run)
    decreases |run|
  {
    if run == [] then [] else
      TurnKeeps(w, run[0]);
      TimerStepsOf(w, run[0]) + TimerSteps(TakeTurn(w, run[0]), run[1..])
  }

  lemma OneActor(o: Os, a: Actor, rest: seq<Actor>)
    requires CpuLoop.Inv(o) && CpuRuns.Enabled(o, a)
    ensures CpuLoop.Inv(Act(o, a).0)
    ensures CpuRuns.Runnable(Act(o, a).0, rest) ==>
              CpuRuns.Runnable(o, [a] + rest) && CpuRuns.Final(o, [a] + rest) == CpuRuns.Final(Act(o, a).0, rest)
  {
    ActKeeps(o, a);
    hide CpuLoop.Inv, Act;
    assert ([a] + rest)[1..] == rest;
  }

  lemma TurnIsItsActor(w: Sim, a: Turn)
    requires SimInv(w) && CanTurn(w, a)
    ensures var acts := ActorsOf(w, a); var o' := TakeTurn(w, a).o;
            if acts == [] then o' == w.o
            else acts == [acts[0]] && CpuRuns.Enabled(w.o, acts[0]) && Act(w.o, acts[0]).0 == o'
  {
    hide CpuStep, LoaderStep, CpuLoop.Inv;
  }

  lemma TurnIsItsStep(w: Sim, a: Turn)
    requires SimInv(w) && CanTurn(w, a)
    ensures var steps := TimerStepsOf(w, a); var t' := TakeTurn(w, a).t;
            if steps == [] then t' == w.t
            else steps == [steps[0]] && T.Enabled(w.t, steps[0]) && T.Next(w.t, steps[0]) == t'
  {
    hide CpuStep, LoaderStep, CpuLoop.Inv, T.Next;
  }

  lemma OneStep(t: T.State, s: T.Step, rest: seq<T.Step>)
    requires T.Enabled(t, s) && T.Runnable(T.Next(t, s), rest)
    ensures T.Runnable(t, [s] + rest) && T.Final(t, [s] + rest) == T.Final(T.Next(t, s), rest)
  {
    hide T.Enabled, T.Next;
    assert ([s] + rest)[1..] == rest;
  }

  /** Seen from the CPUs, a run of the simulator is one of their runs: all that holds of every
      interleaving of CPUs and loader holds of it. */
  lemma {:induction false} IsCpuRun(w: Sim, run: seq<Turn>)
    requires SimInv(w) && Playable(w, run)
    ensures CpuLoop.Inv(w.o) && CpuRuns.Runnable(w.o, Actors(w, run))
    ensures CpuRuns.Final(w.o, Actors(w, run)) == After(w, run).o
    decreases |run|
  {
    if run == [] {
    } else {
      var w1 := TakeTurn(w, run[0]);
      TurnKeeps(w, run[0]);
      TurnIsItsActor(w, run[0]);
      assert CpuLoop.Inv(w.o);
      hide SimInv, TakeTurn, CanTurn, ActorsOf, CpuLoop.Inv, Act;
      IsCpuRun(w1, run[1..]);
      var rest := Actors(w1, run[1..]);
      var acts := ActorsOf(w, run[0]);
      assert Actors(w, run) == acts + rest;
      if acts == [] {
        assert acts + rest == rest;
      } else {
        hide CpuRuns.Runnable, CpuRuns.Final;
        OneActor(w.o, acts[0], rest);
      }
    }
  }

  /** Seen from the timer, it is one of the timer's runs. */
  lemma {:induction false} IsTimerRun(w: Sim, run: seq<Turn>)
    requires SimInv(w) && Playable(w, run)
    ensures T.Runnable(w.t, TimerSteps(w, run)) && T.Final(w.t, TimerSteps(w, run)) == After(w, run).t
    decreases |run|
  {
    if run == [] {
    } else {
      var w1 := TakeTurn(w, run[0]);
      TurnKeeps(w, run[0]);
      TurnIsItsStep(w, run[0]);
      hide SimInv, TakeTurn, CanTurn, TimerStepsOf, T.Enabled, T.Next;
      IsTimerRun(w1, run[1..]);
      var rest := TimerSteps(w1, run[1..]);
      var steps := TimerStepsOf(w, run[0]);
      assert TimerSteps(w, run) == steps + rest;
      if steps == [] {
        assert steps + rest == rest;
      } else {
        hide T.Runnable, T.Final;
        OneStep(w.t, steps[0], rest);
      }
    }
  }

  /** A run of the whole simulator from start-up, on at least one CPU. */
  ghost predicate Simulation(timeSlot: int, programs: seq<Proc>, start: seq<nat>, ncpus: nat, run: seq<Turn>) {
    && DistinctPids(programs) && |start| == |programs| && 0 < ncpus
    && (StartUpInv(timeSlot, programs, start, ncpus); Playable(StartUp(timeSlot, programs, start, ncpus), run))
  }

  ghost function Outcome(timeSlot: int, programs: seq<Proc>, start: seq<nat>, ncpus: nat, run: seq<Turn>): (w: Sim)
    requires Simulation(timeSlot, programs, start, ncpus, run)
    ensures SimInv(w) && w.start == start && w.o.programs == programs && |w.o.cpus| == ncpus
  {
    StartUpInv(timeSlot, programs, start, ncpus);
    After(StartUp(timeSlot, programs, start, ncpus), run)
  }

  /** What its CPUs and its loader did. */
  ghost function Deeds(timeSlot: int, programs: seq<Proc>, start: seq<nat>, ncpus: nat, run: seq<Turn>)
    : (acts: seq<Actor>)
    requires Simulation(timeSlot, programs, start, ncpus, run)
    ensures var o := Boot(timeSlot, programs, ncpus);
            && CpuLoop.Inv(o) && CpuRuns.Runnable(o, acts)
            && CpuRuns.Final(o, acts) == Outcome(timeSlot, programs, start, ncpus, run).o
  {
    StartUpInv(timeSlot, programs, start, ncpus);
    IsCpuRun(StartUp(timeSlot, programs, start, ncpus), run);
    Actors(StartUp(timeSlot, programs, start, ncpus), run)
  }

  predicate AllStopped(o: Os) {
    forall c :: 0 <= c < |o.cpus| ==> o.cpus[c].mode.Stopped?
  }

  lemma StoppedMeansEmpty(w: Sim)
    requires SimInv(w) && AllStopped(w.o)
    ensures !SomebodyQueued(w.o) && w.o.loaded == |w.o.programs|
  {
    assert CpuInStep(w, 0);
    assert forall c: nat :: !WillLook(w.o, c);
  }

  /** When every CPU has stopped, or finds nothing at the top of its loop, every process admitted so
      far has been freed after its last instruction, or was dropped; and when every CPU has
      stopped, those are all the programs. */
  lemma SimulationFinishes(timeSlot: int, programs: seq<Proc>, start: seq<nat>, ncpus: nat, run: seq<Turn>)
    requires Simulation(timeSlot, programs, start, ncpus, run)
    ensures var o := Outcome(timeSlot, programs, start, ncpus, run).o;
            && (AllStopped(o) ==> AllIdle(o) && o.loaded == |o.programs|)
            && (AllIdle(o) ==>
                  AllAccounted(Boot(timeSlot, programs, ncpus), Deeds(timeSlot, programs, start, ncpus, run)))
  {
    var w := Outcome(timeSlot, programs, start, ncpus, run);
    var acts := Deeds(timeSlot, programs, start, ncpus, run);
    if AllStopped(w.o) { StoppedMeansEmpty(w); }
    hide Outcome, Deeds, Simulation, Boot, AllAccounted;
    if AllIdle(w.o) { RestMeansFinished(timeSlot, programs, ncpus, acts); }
  }

  /** Program i is admitted in the slot of its start time, or in the one after its predecessor's,
      whichever is later. */
  lemma AdmissionsAreOnTime(timeSlot: int, programs: seq<Proc>, start: seq<nat>, ncpus: nat, run: seq<Turn>, i: nat)
    requires Simulation(timeSlot, programs, start, ncpus, run)
    ensures var w := Outcome(timeSlot, programs, start, ncpus, run);
            && |w.admitted| == w.o.loaded <= |programs| == |start|
            && (i < |w.admitted| ==> w.admitted[i] == Max(start[i], if i == 0 then 0 else w.admitted[i - 1] + 1))
  {
    var w := Outcome(timeSlot, programs, start, ncpus, run);
    hide Outcome, Simulation;
    assert AdmittedOnTime(w) && LoaderInStep(w);
  }
}
