/** How turns and threads end in the simulator (src/os.c, src/timer.c): a CPU runs one instruction in
  a slot, the loader and the CPUs leave when they are done, and then the timer ends. */
module SlotEnds {
  import opened CpuLoop
  import opened CpuRuns
  import opened SlotRuns

  // ---- one instruction in a slot -----------------------------------------------------------

  /** CPU c runs an instruction of its process, if any is left, in its next section. */
  predicate AboutToRun(w: Sim, c: nat) {
    c < |w.o.cpus| && w.o.cpus[c].mode.Recheck? && w.o.cpus[c].proc.Some?
  }

  /** A section ends the turn of its CPU exactly if it has run an instruction, found no process to
      go on with, or stopped. */
  lemma SectionEndsTurn(w: Sim, c: nat)
    requires SimInv(w) && CanTurn(w, CpuSection(c))
    ensures var w' := TakeTurn(w, CpuSection(c)); var k := w.o.cpus[c];
            && c < |w'.ending|
            && (w'.ending[c] <==> k.mode.Recheck? || (k.mode.Top? && k.proc.None? && !SomebodyQueued(w.o)))
  {
    assert CpuInStep(w, c);
    CpuStepFrame(w.o, c);
    if w.o.cpus[c].proc.Some? { HoldingMoves(w.o, c); } else { LookingMoves(w.o, c); }
    hide SimInv, CpuStep;
  }

  /** CPU c has finished its turn of slot `slot`, or a later one has begun for it. */
  predicate Past(w: Sim, c: nat, slot: nat) {
    && c < |w.o.cpus| && c < |w.t.devs| && slot <= w.t.devs[c].slots
    && (w.t.devs[c].slots == slot ==> !InTurn(w, c))
  }

  lemma DeviceOfCpu(w: Sim, c: nat)
    requires SimInv(w) && c < |w.o.cpus|
    ensures c < |w.t.devs| == |w.ending| == |w.o.cpus| + 1
    ensures w.t.devs[c].pc == T.Working ==> w.t.devs[c].slots == w.t.time
    ensures w.ending[c] ==> w.t.devs[c].pc == T.Working
  {
    assert CpuInStep(w, c) && T.DevOk(w.t, c);
  }

  lemma TurnStaysPast(w: Sim, a: Turn, c: nat, slot: nat)
    requires SimInv(w) && CanTurn(w, a) && Past(w, c, slot)
    ensures Past(TakeTurn(w, a), c, slot)
  {
    DeviceOfCpu(w, c);
    match a
    case CpuSection(d) => CpuStepFrame(w.o, d);
    case LoaderSection =>
    case EndTurn(i) => CallMoves(w.t, if Leaves(w, i) then T.Detach(i) else T.Arrive(i), i);
    case TimerSection(s) => TimerMoves(w.t, s, c);
  }

  lemma {:induction false} StaysPast(w: Sim, run: seq<Turn>, c: nat, slot: nat)
    requires SimInv(w) && Playable(w, run) && Past(w, c, slot)
    ensures Past(After(w, run), c, slot)
    decreases |run|
  {
    hide SimInv, CanTurn, TakeTurn, Playable, After, Past;
    if run == [] {
      NoTurn(w);
    } else {
      FirstTurn(w, run);
      TurnStaysPast(w, run[0], c, slot);
      StaysPast(TakeTurn(w, run[0]), run[1..], c, slot);
    }
  }

  /** A CPU runs at most one instruction in a slot: once it has run one, its next section of any kind
      comes in a later slot. */
  lemma OneInstructionPerSlot(w: Sim, c: nat, run: seq<Turn>)
    requires SimInv(w) && CanTurn(w, CpuSection(c)) && AboutToRun(w, c)
    ensures SimInv(TakeTurn(w, CpuSection(c)))
    ensures var w1 := TakeTurn(w, CpuSection(c));
            Playable(w1, run) && CanTurn(After(w1, run), CpuSection(c)) ==> w.t.time < After(w1, run).t.time
  {
    var w1 := TakeTurn(w, CpuSection(c));
    TurnKeeps(w, CpuSection(c));
    SectionEndsTurn(w, c);
    DeviceOfCpu(w, c);
    assert Past(w1, c, w.t.time);
    hide SimInv, TakeTurn;
    if Playable(w1, run) && CanTurn(After(w1, run), CpuSection(c)) {
      StaysPast(w1, run, c, w.t.time);
      DeviceOfCpu(After(w1, run), c);
    }
  }

  // ---- a CPU stops -----------------------------------------------------------------------

  /** CPU c on its way out, n of its own turns after it found nobody: at the recheck without a
      process and with `done` set; stopped and about to detach; detached. */
  predicate Stopping(w: Sim, c: nat, n: nat) {
    && w.o.done && c < |w.o.cpus| && c < |w.t.devs| && c < |w.ending| && w.o.cpus[c].proc.None?
    && (n == 0 ==> InTurn(w, c) && w.o.cpus[c].mode.Recheck?)
    && (n == 1 ==> w.ending[c] && w.o.cpus[c].mode.Stopped? && w.t.devs[c].pc == T.Working)
    && (n >= 2 ==> w.o.cpus[c].mode.Stopped? && w.t.devs[c].pc == T.Detached)
  }

  predicate Own(a: Turn, c: nat) {
    a == CpuSection(c) || a == EndTurn(c)
  }

  function OwnTurns(run: seq<Turn>, c: nat): nat {
    if run == [] then 0 else (if Own(run[0], c) then 1 else 0) + OwnTurns(run[1..], c)
  }

  /** A CPU that comes back from a release after `done` and finds all queues empty is on its way
      out. */
  lemma FindsNobodyAndLeaves(w: Sim, c: nat)
    requires SimInv(w) && CanTurn(w, CpuSection(c)) && w.o.cpus[c].mode.Fetch? && w.o.done && !SomebodyQueued(w.o)
    ensures Stopping(TakeTurn(w, CpuSection(c)), c, 0)
  {
    assert CpuInStep(w, c) && ModeFits(w.o.cpus[c]);
    CpuStepFrame(w.o, c);
    LookingMoves(w.o, c);
  }

  lemma TurnStops(w: Sim, a: Turn, c: nat, n: nat)
    requires SimInv(w) && CanTurn(w, a) && Stopping(w, c, n)
    ensures Stopping(TakeTurn(w, a), c, if Own(a, c) then n + 1 else n)
  {
    DeviceOfCpu(w, c);
    match a
    case CpuSection(d) =>
      CpuStepFrame(w.o, d);
      if d == c { LookingMoves(w.o, c); }
      hide CpuStep, SimInv;
    case LoaderSection =>
      LoaderMoves(w.o);
      LoaderHasLeft(w);
    case EndTurn(i) => CallMoves(w.t, if Leaves(w, i) then T.Detach(i) else T.Arrive(i), i);
    case TimerSection(s) => TimerMoves(w.t, s, c);
  }

  /** Once `done` is set the loader has no more turns. */
  lemma LoaderHasLeft(w: Sim)
    requires SimInv(w) && w.o.done
    ensures !InTurn(w, |w.o.cpus|)
  {
    assert LoaderInStep(w);
  }

  /** It is stopped after its next section and detached after the end of that turn, whatever the other
      threads do in between. */
  lemma {:induction false} StopsForGood(w: Sim, run: seq<Turn>, c: nat, n: nat)
    requires SimInv(w) && Playable(w, run) && Stopping(w, c, n)
    ensures Stopping(After(w, run), c, n + OwnTurns(run, c))
    decreases |run|
  {
    hide SimInv, CanTurn, TakeTurn, Playable, After, Stopping, Own;
    if run == [] {
      NoTurn(w);
    } else {
      FirstTurn(w, run);
      TurnStops(w, run[0], c, n);
      var n1 := if Own(run[0], c) then n + 1 else n;
      StopsForGood(TakeTurn(w, run[0]), run[1..], c, n1);
    }
  }

  /** Every turn still open to it is one it can take: it never waits for anybody on its way out. */
  lemma CanLeave(w: Sim, c: nat, n: nat)
    requires SimInv(w) && Stopping(w, c, n) && n < 2
    ensures CanTurn(w, if n == 0 then CpuSection(c) else EndTurn(c))
  {
    DeviceOfCpu(w, c);
  }

  // ---- the loader leaves -------------------------------------------------------------------

  /** The loader's turn after the last admission sets `done`, and it then detaches. */
  lemma LoaderLeaves(w: Sim)
    requires SimInv(w) && CanTurn(w, LoaderSection) && w.o.loaded == |w.o.programs|
    ensures var w1 := TakeTurn(w, LoaderSection); var n := |w.o.cpus|;
            && SimInv(w1) && w1.o == w.o.(done := true) && CanTurn(w1, EndTurn(n))
            && n < |TakeTurn(w1, EndTurn(n)).t.devs| && TakeTurn(w1, EndTurn(n)).t.devs[n].pc == T.Detached
  {
    TurnKeeps(w, LoaderSection);
    LoaderMoves(w.o);
    var w1 := TakeTurn(w, LoaderSection);
    CallMoves(w1.t, T.Detach(|w.o.cpus|), |w.o.cpus|);
  }

  // ---- the timer ends ----------------------------------------------------------------------

  /** The device has finished, or is about to and nothing keeps it. */
  lemma StoppedCanLeave(w: Sim, i: nat)
    requires SimInv(w) && AllStopped(w.o) && i < |w.t.devs|
    ensures w.t.devs[i].pc == T.Detached || (CanTurn(w, EndTurn(i)) && Leaves(w, i))
  {
    assert CpuInStep(w, 0);
    if i < |w.o.cpus| {
      assert CpuInStep(w, i);
    } else {
      assert LoaderInStep(w);
    }
  }

  /** The first n devices have finished. */
  predicate Gone(w: Sim, n: nat) {
    forall i :: 0 <= i < n && i < |w.t.devs| ==> w.t.devs[i].pc == T.Detached
  }

  lemma LastLeaves(w: Sim, n: nat) returns (run: seq<Turn>)
    requires SimInv(w) && AllStopped(w.o) && n < |w.t.devs| && Gone(w, n)
    ensures Playable(w, run) && After(w, run).o == w.o
    ensures |After(w, run).t.devs| == |w.t.devs| && Gone(After(w, run), n + 1)
  {
    StoppedCanLeave(w, n);
    if w.t.devs[n].pc == T.Detached {
      run := [];
    } else {
      run := [EndTurn(n)];
      TurnKeeps(w, EndTurn(n));
      CallMoves(w.t, T.Detach(n), n);
      assert run[1..] == [];
      hide SimInv;
    }
  }

  lemma {:induction false} PlayOn(w: Sim, a: seq<Turn>, b: seq<Turn>)
    requires SimInv(w) && Playable(w, a) && Playable(After(w, a), b)
    ensures Playable(w, a + b) && After(w, a + b) == After(After(w, a), b)
    decreases |a|
  {
    hide SimInv, CanTurn, TakeTurn, Playable, After;
    if a == [] {
      NoTurn(w);
      assert a + b == b;
    } else {
      FirstTurn(w, a);
      PlayOn(TakeTurn(w, a[0]), a[1..], b);
      OneMoreTurn(w, a[0], a[1..] + b);
      assert a + b == [a[0]] + (a[1..] + b);
    }
  }

  lemma {:induction false} EverybodyLeaves(w: Sim, n: nat) returns (run: seq<Turn>)
    requires SimInv(w) && AllStopped(w.o) && n <= |w.t.devs|
    ensures Playable(w, run) && After(w, run).o == w.o && |After(w, run).t.devs| == |w.t.devs| && Gone(After(w, run), n)
    decreases n
  {
    if n == 0 {
      run := [];
    } else {
      run := EverybodyLeaves(w, n - 1);
      var w1 := After(w, run);
      hide SimInv, Playable, After, Gone;
      var last := LastLeaves(w1, n - 1);
      PlayOn(w, run, last);
      run := run + last;
    }
  }

  lemma {:induction false} TimerPlays(w: Sim, steps: seq<T.Step>) returns (run: seq<Turn>)
    requires SimInv(w) && T.TimerOnly(steps) && T.Runnable(w.t, steps)
    ensures Playable(w, run) && After(w, run).t == T.Final(w.t, steps) && After(w, run).o == w.o
    decreases |steps|
  {
    run := [];
    if steps == [] {
    } else {
      var a := TimerSection(steps[0]);
      assert CanTurn(w, a);
      TurnKeeps(w, a);
      var w1 := TakeTurn(w, a);
      assert T.TimerOnly(steps[1..]);
      hide SimInv, T.Enabled, T.Next;
      var rest := TimerPlays(w1, steps[1..]);
      run := [a] + rest;
      assert run[1..] == rest;
    }
  }

  /** When every CPU has stopped, what is left to do can be done: everybody detaches, and the timer
      counts its last slot, breaks out of its loop and ends, so that main can join all threads. */
  lemma SimulationCanEnd(w: Sim) returns (run: seq<Turn>)
    requires SimInv(w) && AllStopped(w.o)
    ensures Playable(w, run) && After(w, run).t.timer.Ended? && Gone(After(w, run), |After(w, run).t.devs|)
  {
    run := EverybodyLeaves(w, |w.t.devs|);
    var w1 := After(w, run);
    assert T.Inv(w1.t);
    hide SimInv, Playable, After;
    var steps := T.FinishedTimerEnds(w1.t);
    var rest := TimerPlays(w1, steps);
    PlayOn(w, run, rest);
    run := run + rest;
    AtEndAllGone(After(w, run));
  }

  lemma AtEndAllGone(w: Sim)
    requires SimInv(w) && w.t.timer.Ended?
    ensures Gone(w, |w.t.devs|)
  {
    T.AtRest(w.t);
  }

  /** And it cannot come to rest anywhere else: if every CPU has stopped, nobody is about to detach and
      the timer has no section to run, then the timer has ended. */
  lemma StoppedRestsOnlyAtEnd(w: Sim)
    requires SimInv(w) && AllStopped(w.o)
    requires forall i: nat :: !CanTurn(w, EndTurn(i))
    requires !CanTurn(w, TimerSection(T.TimerTurn))
    ensures w.t.timer.Ended?
  {
    T.AtRest(w.t);
    if w.t.timer.AsleepOn? {
      var i := w.t.timer.i;
      StoppedCanLeave(w, i);
      T.DetachedHasFinished(w.t, i);
    }
  }
}
