/** The slot timer and its devices (src/timer.c), as a state machine over locked sections.

  pthread_cond_wait ends its section and leaves the thread asleep; a signal, or a spurious
  wake-up, sends it back to re-test its condition under the lock.
 */
module SlotTimer {
  /** The timer thread: about to test device i; asleep on device i's event_cond; about to release
      device i; past its loop. */
  datatype TimerPc = Scan(i: nat) | AsleepOn(i: nat) | Release(i: nat) | Ended

  /** A device's thread: outside timer.c; in next_slot between its two locked parts, or woken
      there; asleep on its timer_cond; past detach_event. */
  datatype DevPc = Working | Waiting | Asleep | Detached

  /** `slots` counts the completed calls of next_slot. */
  datatype Dev = Dev(pc: DevPc, done: bool, fsh: bool, slots: nat)

  /** `fsh` and `event` are timer_routine's counters of the current round. */
  datatype State = State(timer: TimerPc, fsh: nat, event: nat, time: nat, stop: bool, devs: seq<Dev>)

  datatype Step =
    | TimerTurn              // the timer's next section
    | Arrive(i: nat)         // next_slot: done = 1 and the signal
    | Retest(i: nat)         // next_slot: the test of done under timer_lock
    | Detach(i: nat)         // detach_event
    | WakeTimer              // a spurious wake-up of the timer
    | WakeDev(i: nat)        // a spurious wake-up of a device
    | RequestStop            // stop_timer, which main calls when every thread has been joined

  predicate Arrived(d: Dev) {
    d.done || d.fsh
  }

  predicate Enabled(t: State, s: Step) {
    match s
    case TimerTurn => t.timer.Scan? || t.timer.Release?
    case Arrive(i) => i < |t.devs| && t.devs[i].pc == Working
    case Retest(i) => i < |t.devs| && t.devs[i].pc == Waiting
    case Detach(i) => i < |t.devs| && t.devs[i].pc == Working
    case WakeTimer => t.timer.AsleepOn?
    case WakeDev(i) => i < |t.devs| && t.devs[i].pc == Asleep
    case RequestStop => forall i :: 0 <= i < |t.devs| ==> t.devs[i].fsh
  }

  /** A signal on device i's event_cond. */
  function Signalled(pc: TimerPc, i: nat): TimerPc {
    if pc == AsleepOn(i) then Scan(i) else pc
  }

  function SetDev(t: State, i: nat, d: Dev): State
    requires i < |t.devs|
  {
    t.(devs := t.devs[i := d])
  }

  function TimerStep(t: State): State {
    match t.timer
    case Scan(i) =>
      if i >= |t.devs| then t.(time := t.time + 1, timer := Release(0))
      else if !Arrived(t.devs[i]) then t.(timer := AsleepOn(i))
      else t.(timer := Scan(i + 1), event := t.event + 1, fsh := t.fsh + if t.devs[i].fsh then 1 else 0)
    case Release(i) =>
      if i < |t.devs| then
        var d := t.devs[i];
        SetDev(t, i, d.(done := false, pc := if d.pc == Asleep then Waiting else d.pc)).(timer := Release(i + 1))
      else if t.fsh == t.event || t.stop then t.(timer := Ended)
      else t.(timer := Scan(0), fsh := 0, event := 0)
    case _ => t
  }

  function Next(t: State, s: Step): State
    requires Enabled(t, s)
  {
    match s
    case TimerTurn => TimerStep(t)
    case Arrive(i) =>
      SetDev(t, i, t.devs[i].(done := true, pc := Waiting)).(timer := Signalled(t.timer, i))
    case Retest(i) =>
      var d := t.devs[i];
      SetDev(t, i, if d.done then d.(pc := Asleep) else d.(pc := Working, slots := d.slots + 1))
    case Detach(i) =>
      SetDev(t, i, t.devs[i].(fsh := true, pc := Detached)).(timer := Signalled(t.timer, i))
    case WakeTimer => t.(timer := Scan(t.timer.i))
    case WakeDev(i) => SetDev(t, i, t.devs[i].(pc := Waiting))
    case RequestStop => t.(stop := true)
  }

  /** start_timer after n calls of attach_event. */
  function Start(n: nat): State {
    State(Scan(0), 0, 0, 0, false, seq(n, _ => Dev(Working, false, false, 0)))
  }

  // ---- the invariant -------------------------------------------------------------

  /** Device i still waits for the release of a slot that has been counted. */
  predicate Unreleased(t: State, i: nat) {
    t.timer.Release? && t.timer.i <= i
  }

  predicate DevOk(t: State, i: nat)
    requires i < |t.devs|
  {
    var d := t.devs[i];
    && (d.pc == Detached <==> d.fsh)
    && (d.pc == Working ==> !d.done && d.slots == t.time)
    && (d.pc == Asleep ==> d.done)
    && (d.pc == Waiting || d.pc == Asleep ==> d.slots + (if d.done && !Unreleased(t, i) then 0 else 1) == t.time)
    && ((t.timer.Scan? || t.timer.AsleepOn?) && i < t.timer.i ==> Arrived(d))
    && (t.timer.Release? && t.timer.i <= i ==> Arrived(d))
    && (t.timer == AsleepOn(i) ==> !Arrived(d))
    && (t.timer.Ended? ==> d.fsh)
    && (t.fsh == t.event && i < t.event ==> d.fsh)
  }

  predicate Inv(t: State) {
    && (forall i :: 0 <= i < |t.devs| ==> DevOk(t, i))
    && t.fsh <= t.event <= |t.devs|
    && (t.timer.Scan? || t.timer.AsleepOn? ==> t.event == t.timer.i)
    && (t.timer.AsleepOn? ==> t.timer.i < |t.devs|)
    && (t.timer.Release? ==> t.timer.i <= |t.devs| == t.event)
    && (t.stop ==> forall i :: 0 <= i < |t.devs| ==> t.devs[i].fsh)
  }

  lemma StartInv(n: nat)
    ensures Inv(Start(n))
  {
  }

  lemma StepKeepsInv(t: State, s: Step)
    requires Inv(t) && Enabled(t, s)
    ensures Inv(Next(t, s))
  {
    var t' := Next(t, s);
    forall i | 0 <= i < |t'.devs|
      ensures DevOk(t', i)
    {
      assert DevOk(t, i);
    }
  }

  // ---- runs ------------------------------------------------------------------------

  ghost predicate Runnable(t: State, run: seq<Step>)
    decreases |run|
  {
    run == [] || (Enabled(t, run[0]) && Runnable(Next(t, run[0]), run[1..]))
  }

  ghost function Final(t: State, run: seq<Step>): State
    requires Runnable(t, run)
    decreases |run|
  {
    if run == [] then t else Final(Next(t, run[0]), run[1..])
  }

  lemma {:induction false} RunKeepsInv(t: State, run: seq<Step>)
    requires Inv(t) && Runnable(t, run)
    ensures Inv(Final(t, run)) && |Final(t, run).devs| == |t.devs|
    decreases |run|
  {
    if run == [] {
    } else {
      StepKeepsInv(t, run[0]);
      RunKeepsInv(Next(t, run[0]), run[1..]);
    }
  }

  /** Some run of n attached devices and their timer. */
  ghost predicate Run(n: nat, run: seq<Step>) {
    Runnable(Start(n), run)
  }

  /** The state such a run leads to. */
  ghost function Reached(n: nat, run: seq<Step>): (t: State)
    requires Run(n, run)
    ensures Inv(t) && |t.devs| == n
  {
    StartInv(n);
    RunKeepsInv(Start(n), run);
    Final(Start(n), run)
  }

  // ---- lockstep -------------------------------------------------------------------

  /** In every reachable state time moves by one, and only when every device has arrived or
      finished. */
  lemma TimeWaitsForAll(n: nat, run: seq<Step>, s: Step)
    requires Run(n, run) && Enabled(Reached(n, run), s)
    ensures var t := Reached(n, run); var t' := Next(t, s);
            t'.time != t.time ==> t'.time == t.time + 1 && forall i :: 0 <= i < n ==> Arrived(t.devs[i])
  {
    var t := Reached(n, run);
    hide Reached;
    forall i | 0 <= i < n && Next(t, s).time != t.time
      ensures Arrived(t.devs[i])
    {
      assert DevOk(t, i);
    }
  }

  /** In every reachable state a working device has completed as many slots as have passed, and no
      two unfinished devices are more than one slot apart. */
  lemma Lockstep(n: nat, run: seq<Step>, i: nat, j: nat)
    requires Run(n, run) && i < n && j < n
    ensures var t := Reached(n, run);
            && (t.devs[i].pc == Working ==> t.devs[i].slots == t.time)
            && (!t.devs[i].fsh && !t.devs[j].fsh ==> t.devs[i].slots <= t.devs[j].slots + 1)
  {
    var t := Reached(n, run);
    hide Reached;
    assert DevOk(t, i) && DevOk(t, j);
  }

  /** While a device works, between two of its calls, current_time() stands still. */
  lemma {:induction false} TimeStandsStillForWorker(t: State, run: seq<Step>, i: nat)
    requires Inv(t) && Runnable(t, run) && i < |t.devs| && t.devs[i].pc == Working
    requires forall k :: 0 <= k < |run| ==> run[k] != Arrive(i) && run[k] != Detach(i)
    ensures var t' := Final(t, run);
            i < |t'.devs| && t'.devs[i] == t.devs[i] && t'.time == t.time == t.devs[i].slots
    decreases |run|
  {
    assert DevOk(t, i);
    if run == [] {
    } else {
      var t1 := Next(t, run[0]);
      StepKeepsInv(t, run[0]);
      assert run[0] != Arrive(i) && run[0] != Detach(i);
      assert t1.devs[i] == t.devs[i];
      assert DevOk(t1, i);
      TimeStandsStillForWorker(t1, run[1..], i);
    }
  }

  /** The two locks that guard `done` are never in use at once: while the timer still has to
      release a device, that device is not about to announce itself again. */
  lemma ReleaseNeverRacesArrive(n: nat, run: seq<Step>, i: nat)
    requires Run(n, run) && i < n && Unreleased(Reached(n, run), i)
    ensures !Enabled(Reached(n, run), Arrive(i))
  {
    var t := Reached(n, run);
    hide Reached;
    assert DevOk(t, i);
  }

  // ---- sleep and wake-up --------------------------------------------------------------

  /** In no reachable state does a thread sleep through the event it waits for: the timer sleeps
      only on a device that has neither arrived nor finished; a device sleeps only while its flag
      is up and the timer runs, and is a slot behind exactly while its release is still to come. */
  lemma NoLostWakeup(n: nat, run: seq<Step>, i: nat)
    requires Run(n, run) && i < n
    ensures var t := Reached(n, run);
            && (t.timer == AsleepOn(i) ==> !t.devs[i].done && !t.devs[i].fsh)
            && (t.devs[i].pc == Asleep ==> t.devs[i].done && !t.timer.Ended?)
            && (t.devs[i].pc == Asleep ==> t.devs[i].slots + (if Unreleased(t, i) then 1 else 0) == t.time)
  {
    var t := Reached(n, run);
    hide Reached;
    assert DevOk(t, i);
  }

  /** In every reachable state where the timer has ended every device has finished. */
  lemma EndsOnlyWhenAllFinished(n: nat, run: seq<Step>, i: nat)
    requires Run(n, run) && i < n
    ensures Reached(n, run).timer.Ended? ==> Reached(n, run).devs[i].pc == Detached
  {
    var t := Reached(n, run);
    hide Reached;
    assert DevOk(t, i);
  }

  /** A device that has finished never holds up the timer again. */
  lemma {:induction false} FinishedForGood(t: State, run: seq<Step>, i: nat)
    requires Inv(t) && Runnable(t, run) && i < |t.devs| && t.devs[i].fsh
    ensures var t' := Final(t, run);
            && i < |t'.devs| && t'.devs[i].pc == Detached && t'.devs[i].fsh
            && t'.devs[i].slots == t.devs[i].slots && t'.timer != AsleepOn(i)
    decreases |run|
  {
    assert DevOk(t, i);
    if run == [] {
    } else {
      StepKeepsInv(t, run[0]);
      FinishedForGood(Next(t, run[0]), run[1..], i);
    }
  }

  /** Sections that need no device to call and no spurious wake-up. */
  predicate Internal(s: Step) {
    s.TimerTurn? || s.Retest?
  }

  ghost predicate Quiet(t: State) {
    forall s :: Internal(s) ==> !Enabled(t, s)
  }

  /** No deadlock: when no internal section can run, either the timer has ended, or it sleeps on
      a device that is working and will wake it, and whoever sleeps has arrived. */
  lemma NoDeadlock(n: nat, run: seq<Step>)
    requires Run(n, run) && Quiet(Reached(n, run))
    ensures var t := Reached(n, run);
            && (t.timer.Ended? || (t.timer.AsleepOn? && t.timer.i < n && t.devs[t.timer.i].pc == Working))
            && forall i :: 0 <= i < n ==>
                 (t.devs[i].pc == Asleep && t.devs[i].done) || t.devs[i].pc == Working || t.devs[i].pc == Detached
  {
    var t := Reached(n, run);
    hide Reached;
    assert !Enabled(t, TimerTurn);
    forall i | 0 <= i < n
      ensures (t.devs[i].pc == Asleep && t.devs[i].done) || t.devs[i].pc == Working || t.devs[i].pc == Detached
    {
      assert DevOk(t, i) && !Enabled(t, Retest(i));
    }
    if t.timer.AsleepOn? { assert DevOk(t, t.timer.i); }
  }

  // ---- progress ------------------------------------------------------------------------

  function Waiters(devs: seq<Dev>): nat {
    if devs == [] then 0 else (if devs[0].pc == Waiting then 1 else 0) + Waiters(devs[1..])
  }

  lemma {:induction false} WaitersUpdate(devs: seq<Dev>, i: nat, d: Dev)
    requires i < |devs|
    ensures Waiters(devs[i := d]) + (if devs[i].pc == Waiting then 1 else 0)
         == Waiters(devs) + (if d.pc == Waiting then 1 else 0)
    ensures Waiters(devs) <= |devs|
  {
    WaitersBound(devs);
    if i == 0 {
    } else {
      assert devs[i := d][1..] == devs[1..][i - 1 := d];
      WaitersUpdate(devs[1..], i - 1, d);
    }
  }

  lemma {:induction false} WaitersBound(devs: seq<Dev>)
    ensures Waiters(devs) <= |devs|
  {
    if devs == [] {
    } else {
      WaitersBound(devs[1..]);
    }
  }

  predicate AllFinished(t: State) {
    forall i :: 0 <= i < |t.devs| ==> t.devs[i].fsh
  }

  /** This scan ends the timer, or puts it to sleep, before it can start another. */
  predicate ScanIsLast(t: State, k: nat) {
    (exists j :: k <= j < |t.devs| && !Arrived(t.devs[j])) || (t.fsh == t.event && AllFinished(t))
  }

  /** The scan after this release will be such a one. */
  predicate NextIsLast(t: State, k: nat) {
    (exists j :: 0 <= j < |t.devs| && !t.devs[j].fsh && (k <= j || !t.devs[j].done)) || AllFinished(t)
  }

  /** How many sections the timer can still run before a device has to call. */
  function TimerWork(t: State): int {
    var n := |t.devs|;
    match t.timer
    case Scan(k) => if ScanIsLast(t, k) then 2 * n + 2 - k else 4 * n + 4 - k
    case Release(k) =>
      if t.fsh == t.event || t.stop then n - k + 1 else if NextIsLast(t, k) then 3 * n + 3 - k else 5 * n + 5 - k
    case _ => 0
  }

  function Measure(t: State): int {
    TimerWork(t) * (|t.devs| + 1) + Waiters(t.devs)
  }

  lemma MeasureIsNatural(t: State)
    requires Inv(t)
    ensures 0 <= TimerWork(t) && 0 <= Measure(t)
  {
    assert 0 <= TimerWork(t);
  }

  lemma ScanWorks(t: State)
    requires Inv(t) && t.timer.Scan?
    ensures TimerWork(TimerStep(t)) < TimerWork(t)
  {
    var k := t.timer.i;
    forall i | 0 <= i < |t.devs|
      ensures DevOk(t, i)
    {
    }
    if k < |t.devs| && Arrived(t.devs[k]) && ScanIsLast(t, k) && !(t.fsh == t.event && AllFinished(t)) {
      var j :| k <= j < |t.devs| && !Arrived(t.devs[j]);
      assert k + 1 <= j && !Arrived(TimerStep(t).devs[j]);
    }
  }

  lemma ReleaseWorks(t: State)
    requires Inv(t) && t.timer.Release?
    ensures TimerWork(TimerStep(t)) < TimerWork(t)
  {
    var k, t' := t.timer.i, TimerStep(t);
    if NextIsLast(t, k) && !AllFinished(t) {
      var j :| 0 <= j < |t.devs| && !t.devs[j].fsh && (k <= j || !t.devs[j].done);
      assert !t'.devs[j].fsh && (k + 1 <= j || !t'.devs[j].done);
    }
    if AllFinished(t) { assert AllFinished(t'); }
  }

  lemma TimerTurnWaiters(t: State)
    requires Inv(t) && Enabled(t, TimerTurn)
    ensures var t' := TimerStep(t);
            |t'.devs| == |t.devs| && Waiters(t'.devs) <= Waiters(t.devs) + (if t.devs == [] then 0 else 1)
  {
    if t.timer.Release? && t.timer.i < |t.devs| {
      var d := t.devs[t.timer.i];
      WaitersUpdate(t.devs, t.timer.i, d.(done := false, pc := if d.pc == Asleep then Waiting else d.pc));
    }
  }

  lemma RetestWorks(t: State, i: nat)
    requires Inv(t) && Enabled(t, Retest(i))
    ensures var t' := Next(t, Retest(i));
            TimerWork(t') <= TimerWork(t) && Waiters(t'.devs) + 1 == Waiters(t.devs) && |t'.devs| == |t.devs|
  {
    var t' := Next(t, Retest(i));
    WaitersUpdate(t.devs, i, t'.devs[i]);
    assert forall j :: 0 <= j < |t.devs| ==> t'.devs[j].done == t.devs[j].done && t'.devs[j].fsh == t.devs[j].fsh;
    if AllFinished(t) { assert AllFinished(t'); }
    if j :| 0 <= j < |t.devs| && t.timer.Scan? && t.timer.i <= j && !Arrived(t.devs[j]) {
      assert !Arrived(t'.devs[j]);
    }
    if j :| 0 <= j < |t.devs| && t.timer.Release? && !t.devs[j].fsh && (t.timer.i <= j || !t.devs[j].done) {
      assert !t'.devs[j].fsh && (t.timer.i <= j || !t'.devs[j].done);
    }
  }

  lemma Weighted(w': int, w: int, n1: nat, a': nat, a: nat)
    requires (w' < w && 1 <= n1 && a' <= a + n1 - 1) || (w' <= w && a' < a)
    ensures w' * n1 + a' < w * n1 + a
  {
    assert w' < w ==> w' * n1 <= (w - 1) * n1 == w * n1 - n1;
    assert w' <= w ==> w' * n1 <= w * n1;
  }

  lemma InternalStepWorks(t: State, s: Step)
    requires Inv(t) && Enabled(t, s) && Internal(s)
    ensures Measure(Next(t, s)) < Measure(t)
  {
    var t' := Next(t, s);
    var n1 := |t.devs| + 1;
    match s
    case TimerTurn =>
      TimerTurnWaiters(t);
      if t.timer.Scan? { ScanWorks(t); } else { ReleaseWorks(t); }
      hide TimerWork;
      Weighted(TimerWork(t'), TimerWork(t), n1, Waiters(t'.devs), Waiters(t.devs));
    case Retest(i) =>
      RetestWorks(t, i);
      hide TimerWork;
      Weighted(TimerWork(t'), TimerWork(t), n1, Waiters(t'.devs), Waiters(t.devs));
  }

  predicate AllInternal(run: seq<Step>) {
    forall k :: 0 <= k < |run| ==> Internal(run[k])
  }

  /** Between calls of the devices only boundedly many sections can run: the threads always come
      to rest, and NoDeadlock says where. */
  lemma {:induction false} InternalRunsAreBounded(t: State, run: seq<Step>)
    requires Inv(t) && Runnable(t, run) && AllInternal(run)
    ensures |run| <= Measure(t)
    decreases |run|
  {
    MeasureIsNatural(t);
    if run == [] {
    } else {
      StepKeepsInv(t, run[0]);
      InternalStepWorks(t, run[0]);
      assert AllInternal(run[1..]);
      InternalRunsAreBounded(Next(t, run[0]), run[1..]);
    }
  }

  /** Every device has arrived or finished and the timer is still counting them. */
  predicate Due(t: State) {
    t.timer.Scan? && forall i :: 0 <= i < |t.devs| ==> Arrived(t.devs[i])
  }

  /** Once every unfinished device has called next_slot, the slot advances before the threads
      come to rest, whatever the order of their sections. */
  lemma {:induction false} SlotCompletes(t: State, run: seq<Step>)
    requires Inv(t) && Runnable(t, run) && AllInternal(run) && Due(t) && Quiet(Final(t, run))
    ensures t.time < Final(t, run).time
    decreases |run|
  {
    DueIsNotQuiet(t);
    if run == [] {
    } else {
      var t1 := Next(t, run[0]);
      StepKeepsInv(t, run[0]);
      assert Internal(run[0]) && AllInternal(run[1..]);
      if t1.time == t.time {
        assert forall i :: 0 <= i < |t.devs| ==> t1.devs[i].done == t.devs[i].done && t1.devs[i].fsh == t.devs[i].fsh;
        SlotCompletes(t1, run[1..]);
      } else {
        TimeNeverFalls(t1, run[1..]);
      }
    }
  }

  lemma DueIsNotQuiet(t: State)
    requires Due(t)
    ensures !Quiet(t)
  {
    assert Internal(TimerTurn) && Enabled(t, TimerTurn);
  }

  lemma {:induction false} TimeNeverFalls(t: State, run: seq<Step>)
    requires Runnable(t, run)
    ensures t.time <= Final(t, run).time
    decreases |run|
  {
    if run == [] {
    } else {
      TimeNeverFalls(Next(t, run[0]), run[1..]);
    }
  }

  // ---- the shared variables --------------------------------------------------------------

  /** Steps of the timer's own thread. */
  predicate TimerOnly(run: seq<Step>) {
    forall k :: 0 <= k < |run| ==> run[k] == TimerTurn
  }

  lemma {:induction false} OneMoreTurn(t: State, run: seq<Step>)
    requires Runnable(t, run) && TimerOnly(run) && Enabled(Final(t, run), TimerTurn)
    ensures var run' := run + [TimerTurn];
            Runnable(t, run') && TimerOnly(run') && Final(t, run') == TimerStep(Final(t, run))
    decreases |run|
  {
    if run == [] {
      assert [TimerTurn][1..] == [];
    } else {
      assert TimerOnly(run[1..]);
      OneMoreTurn(Next(t, run[0]), run[1..]);
      assert (run + [TimerTurn])[1..] == run[1..] + [TimerTurn];
    }
  }

  /** What the timer's thread does to a device: at most clear its flag and wake it. */
  ghost predicate OnlyReleased(d: Dev, d': Dev) {
    && d'.slots == d.slots && d'.fsh == d.fsh && (d'.done ==> d.done)
    && (d'.pc == d.pc || (d.pc == Asleep && d'.pc == Waiting && !d'.done))
  }

  ghost predicate AllOnlyReleased(devs: seq<Dev>, devs': seq<Dev>) {
    |devs'| == |devs| && forall i :: 0 <= i < |devs| ==> OnlyReleased(devs[i], devs'[i])
  }

  lemma NothingDone(t: State)
    ensures Runnable(t, []) && Final(t, []) == t && AllOnlyReleased(t.devs, t.devs)
  {
  }

  /** One section of the timer brings it closer to rest. */
  lemma TimerTurnWorks(t: State)
    requires Inv(t) && Enabled(t, TimerTurn)
    ensures 0 <= TimerWork(TimerStep(t)) < TimerWork(t)
    ensures AllOnlyReleased(t.devs, TimerStep(t).devs)
    ensures forall devs :: AllOnlyReleased(devs, t.devs) ==> AllOnlyReleased(devs, TimerStep(t).devs)
  {
    if t.timer.Scan? { ScanWorks(t); } else { ReleaseWorks(t); }
    StepKeepsInv(t, TimerTurn);
    MeasureIsNatural(TimerStep(t));
  }

  /** One section of the timer counts time only when everybody has arrived, and wakes only devices
      whose slot is over. */
  lemma TurnMeans(t: State)
    requires Inv(t)
    ensures var t' := TimerStep(t);
            && (t'.time == t.time || (t'.time == t.time + 1 && forall i :: 0 <= i < |t.devs| ==> Arrived(t.devs[i])))
            && |t'.devs| == |t.devs|
            && (forall i :: 0 <= i < |t.devs| && t'.devs[i].pc != t.devs[i].pc ==>
                t'.devs[i].pc == Waiting && t'.devs[i].slots + 1 == t'.time)
  {
    var t' := TimerStep(t);
    forall i | 0 <= i < |t.devs| && t'.devs[i].pc != t.devs[i].pc
      ensures t'.devs[i].pc == Waiting && t'.devs[i].slots + 1 == t'.time
    {
      assert DevOk(t, i);
    }
    forall i | 0 <= i < |t.devs| && t'.time != t.time
      ensures Arrived(t.devs[i])
    {
      assert DevOk(t, i);
    }
  }

  /** Where the timer can stand when it has nothing to do. */
  lemma AtRest(t: State)
    requires Inv(t)
    ensures t.timer.AsleepOn? ==> t.timer.i < |t.devs| && !Arrived(t.devs[t.timer.i])
    ensures t.timer.Ended? ==> forall i :: 0 <= i < |t.devs| ==> t.devs[i].pc == Detached
  {
    if t.timer.AsleepOn? { assert DevOk(t, t.timer.i); }
    forall i | 0 <= i < |t.devs| && t.timer.Ended?
      ensures t.devs[i].pc == Detached
    {
      assert DevOk(t, i);
    }
  }

  /** The timer's own sections bring it to rest. */
  lemma {:induction false} TimerRests(t: State) returns (run: seq<Step>)
    requires Inv(t)
    ensures TimerOnly(run) && Runnable(t, run) && Inv(Final(t, run)) && !Enabled(Final(t, run), TimerTurn)
    ensures AllOnlyReleased(t.devs, Final(t, run).devs)
    decreases TimerWork(t)
  {
    run := [];
    NothingDone(t);
    if Enabled(t, TimerTurn) {
      TimerTurnWorks(t);
      StepKeepsInv(t, TimerTurn);
      hide TimerWork, TimerStep, Inv;
      var rest := TimerRests(TimerStep(t));
      run := [TimerTurn] + rest;
      assert run[1..] == rest;
      hide OnlyReleased;
      ReleasedTwice(t.devs, TimerStep(t).devs, Final(TimerStep(t), rest).devs);
    }
  }

  lemma ReleasedTwice(a: seq<Dev>, b: seq<Dev>, c: seq<Dev>)
    requires AllOnlyReleased(a, b) && AllOnlyReleased(b, c)
    ensures AllOnlyReleased(a, c)
  {
    forall i | 0 <= i < |a|
      ensures OnlyReleased(a[i], c[i])
    {
      assert OnlyReleased(a[i], b[i]) && OnlyReleased(b[i], c[i]);
    }
  }

  /** When every device has finished, they bring it to its end. */
  lemma FinishedTimerEnds(t: State) returns (run: seq<Step>)
    requires Inv(t) && forall i :: 0 <= i < |t.devs| ==> t.devs[i].pc == Detached
    ensures TimerOnly(run) && Runnable(t, run) && Final(t, run).timer.Ended?
  {
    run := TimerRests(t);
    var t' := Final(t, run);
    AtRest(t');
    if t'.timer.AsleepOn? {
      assert OnlyReleased(t.devs[t'.timer.i], t'.devs[t'.timer.i]);
      DetachedHasFinished(t', t'.timer.i);
    }
  }

  lemma DetachedHasFinished(t: State, i: nat)
    requires Inv(t) && i < |t.devs|
    ensures t.devs[i].pc == Detached <==> t.devs[i].fsh
  {
    assert DevOk(t, i);
  }

  /** If nothing is left to wait for, time has moved by the time the timer rests. */
  lemma {:induction false} TimerRunTicks(t: State, run: seq<Step>)
    requires Inv(t) && Runnable(t, run) && TimerOnly(run) && Due(t) && !Enabled(Final(t, run), TimerTurn)
    ensures t.time < Final(t, run).time
    decreases |run|
  {
    if run == [] {
    } else {
      var t1 := Next(t, run[0]);
      StepKeepsInv(t, run[0]);
      assert TimerOnly(run[1..]);
      if t1.time == t.time {
        TimerRunTicks(t1, run[1..]);
      } else {
        TimeNeverFalls(t1, run[1..]);
      }
    }
  }

  /** The static variables of timer.c, the timer_id_t of every attached device, and where each
      thread stands.  Every method but RunTimer is one section under one lock. */
  class Timer {
    var timer: TimerPc
    var fsh: nat
    var event: nat
    var time: nat
    var stop: bool
    const devs: array<Dev>

    ghost function Abs(): State
      reads this, devs
    {
      State(timer, fsh, event, time, stop, devs[..])
    }

    ghost predicate Valid()
      reads this, devs
    {
      Inv(Abs())
    }

    constructor (n: nat)
      ensures Valid() && fresh(devs) && Abs() == Start(n)
    {
      timer, fsh, event, time, stop := Scan(0), 0, 0, 0, false;
      devs := new Dev[n](_ => Dev(Working, false, false, 0));
      new;
      assert devs[..] == seq(n, _ => Dev(Working, false, false, 0));
      StartInv(n);
    }

    /** One section of timer_routine.  It counts time only when everybody has arrived, wakes only
        devices whose slot is over, and ends only when everybody has finished. */
    method TimerSection()
      requires Valid()
      modifies this, devs
      ensures Valid() && Abs() == TimerStep(old(Abs()))
      ensures time == old(time) || (time == old(time) + 1 && forall i :: 0 <= i < devs.Length ==>
                Arrived(old(devs[..])[i]))
      ensures forall i :: 0 <= i < devs.Length && devs[i].pc != old(devs[..])[i].pc ==>
                devs[i].pc == Waiting && devs[i].slots + 1 == time
      ensures timer.Ended? ==> forall i :: 0 <= i < devs.Length ==> devs[i].pc == Detached
    {
      ghost var t := Abs();
      TurnMeans(t);
      if t.timer.Scan? || t.timer.Release? { StepKeepsInv(t, TimerTurn); }
      hide Inv;
      match timer {
        case Scan(i) =>
          if i >= devs.Length {
            time := time + 1;
            timer := Release(0);
          } else if !devs[i].done && !devs[i].fsh {
            timer := AsleepOn(i);
          } else {
            if devs[i].fsh {
              fsh := fsh + 1;
            }
            event := event + 1;
            timer := Scan(i + 1);
          }
        case Release(i) =>
          if i < devs.Length {
            devs[i] := devs[i].(done := false, pc := if devs[i].pc == Asleep then Waiting else devs[i].pc);
            timer := Release(i + 1);
          } else if fsh == event || stop {
            timer := Ended;
          } else {
            fsh, event, timer := 0, 0, Scan(0);
          }
        case _ =>
      }
      assert devs[..] == TimerStep(t).devs;
      assert Abs() == TimerStep(t);
      hide TimerStep, DevOk;
      AtRest(Abs());
    }

    /** timer_routine from where it stands until it has to sleep or is done.  It does come to rest;
        it has then counted a slot if no device was missing; and it sleeps only on a device that
        is missing. */
    method RunTimer() returns (ghost run: seq<Step>)
      requires Valid()
      modifies this, devs
      ensures Valid() && TimerOnly(run) && Runnable(old(Abs()), run) && Abs() == Final(old(Abs()), run)
      ensures timer.Ended? || (timer.AsleepOn? && timer.i < devs.Length && !Arrived(devs[timer.i]))
      ensures timer.Ended? ==> forall i :: 0 <= i < devs.Length ==> devs[i].pc == Detached
      ensures old(Due(Abs())) ==> old(time) < time
      ensures AllOnlyReleased(old(devs[..]), devs[..])
    {
      hide TimerWork, TimerStep, Inv, Runnable, Final, OnlyReleased, Due;
      ghost var t := Abs();
      run := [];
      NothingDone(t);
      while timer.Scan? || timer.Release?
        invariant Valid() && TimerOnly(run) && Runnable(t, run) && Abs() == Final(t, run)
        invariant AllOnlyReleased(t.devs, devs[..])
        decreases TimerWork(Abs())
      {
        OneMoreTurn(t, run);
        TimerTurnWorks(Abs());
        TimerSection();
        run := run + [TimerTurn];
      }
      AtRest(Abs());
      if Due(t) { TimerRunTicks(t, run); }
    }

    /** next_slot up to its first unlock: the timer cannot be left sleeping on this device, which
        counts as arrived for the slot that is running. */
    method Announce(i: nat)
      requires Valid() && Enabled(Abs(), Arrive(i))
      modifies this`timer, devs
      ensures Valid() && Abs() == Next(old(Abs()), Arrive(i))
      ensures timer != AsleepOn(i) && Arrived(devs[i]) && devs[i].slots == time
    {
      StepKeepsInv(Abs(), Arrive(i));
      assert DevOk(Abs(), i);
      devs[i] := devs[i].(done := true, pc := Waiting);
      timer := Signalled(timer, i);
      assert devs[..] == old(devs[..])[i := devs[i]];
    }

    /** One turn of the loop in next_slot, under timer_lock: the device passes only when the slot it
        announced is over, and has then completed as many slots as have passed; else it sleeps with
        its flag up, so that the release that clears the flag will wake it. */
    method AwaitSlot(i: nat) returns (passed: bool)
      requires Valid() && Enabled(Abs(), Retest(i))
      modifies devs
      ensures Valid() && Abs() == Next(old(Abs()), Retest(i))
      ensures passed ==> devs[i].pc == Working && devs[i].slots == time == old(devs[i].slots) + 1
      ensures !passed ==> devs[i].pc == Asleep && devs[i].done
      ensures !passed ==> devs[i].slots + (if Unreleased(Abs(), i) then 1 else 0) == time
    {
      StepKeepsInv(Abs(), Retest(i));
      assert DevOk(Abs(), i);
      passed := !devs[i].done;
      devs[i] := if passed then devs[i].(pc := Working, slots := devs[i].slots + 1) else devs[i].(pc := Asleep);
      assert devs[..] == old(devs[..])[i := devs[i]];
    }

    /** detach_event: the timer is not left sleeping on this device, nor will it ever be. */
    method DetachEvent(i: nat)
      requires Valid() && Enabled(Abs(), Detach(i))
      modifies this`timer, devs
      ensures Valid() && Abs() == Next(old(Abs()), Detach(i))
      ensures timer != AsleepOn(i)
      ensures forall run :: Runnable(Abs(), run) ==> Final(Abs(), run).timer != AsleepOn(i)
    {
      StepKeepsInv(Abs(), Detach(i));
      assert DevOk(Abs(), i);
      devs[i] := devs[i].(fsh := true, pc := Detached);
      timer := Signalled(timer, i);
      assert devs[..] == old(devs[..])[i := devs[i]];
      forall run | Runnable(Abs(), run)
        ensures Final(Abs(), run).timer != AsleepOn(i)
      {
        FinishedForGood(Abs(), run, i);
      }
    }
  }
}
