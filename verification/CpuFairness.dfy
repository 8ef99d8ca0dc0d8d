/** The waiting bounds inside the simulator: what the CPUs and the loader do to the scheduler. */
module CpuFairness {
  import opened Sequences
  import opened ReadyQueue
  import opened Mlq
  import opened MlqFairness
  import opened CpuLoop
  import opened CpuRuns

  /** The call a section makes to the scheduler, if any. */
  ghost function Calls(o: Os, a: Actor): seq<Step>
    requires CpuLoop.Inv(o) && CpuRuns.Enabled(o, a)
  {
    match a
    case LoaderTurn => if o.loaded < |o.programs| then [DoAdd(o.programs[o.loaded])] else []
    case CpuTurn(c) =>
      var k := o.cpus[c];
      if k.mode.Fetch? || (k.mode.Top? && k.proc.None?) then [DoGet]
      else if !k.mode.Top? then []
      else if Pc(o, k.proc.value) == k.proc.value.size then [DoFinish(k.proc.value)]
      else if k.timeLeft == 0 then [DoPut(k.proc.value)]
      else []
  }

  /** All the scheduler calls of a run, in order. */
  ghost function AllCalls(o: Os, run: seq<Actor>): seq<Step>
    requires CpuLoop.Inv(o) && CpuRuns.Runnable(o, run)
    decreases |run|
  {
    if run == [] then [] else
      ActKeeps(o, run[0]);
      Calls(o, run[0]) + AllCalls(Act(o, run[0]).0, run[1..])
  }

  /** A section changes the scheduler by that call and nothing else. */
  lemma ActIsItsCall(o: Os, a: Actor)
    requires CpuLoop.Inv(o) && CpuRuns.Enabled(o, a)
    ensures var s' := Act(o, a).0.sched;
            if Calls(o, a) == [] then s' == o.sched else |Calls(o, a)| == 1 && s' == Exec(o.sched, Calls(o, a)[0]).0
  {
    hide Get, PutBack, Add, Finish;
  }

  /** The process is still in ready queue l after every section of the run. */
  ghost predicate StaysQueued(o: Os, run: seq<Actor>, l: nat, p: Proc)
    requires CpuLoop.Inv(o) && CpuRuns.Runnable(o, run) && l < MAX_PRIO
    decreases |run|
  {
    p in o.sched.ready[l] &&
    (run != [] ==> (ActKeeps(o, run[0]); StaysQueued(Act(o, run[0]).0, run[1..], l, p)))
  }

  /** Who stays in a duplicate-free queue was not taken from it. */
  lemma StillThere(s: Sched, e: Step, l: nat, i: nat)
    requires Valid(s) && l < MAX_PRIO && i < |s.ready[l]| && Distinct(s.ready[l])
    requires s.ready[l][i] in Exec(s, e).0.ready[l]
    ensures Follow(s, e, l, i).Some?
    ensures var i' := Follow(s, e, l, i).value; var r := Exec(s, e).0.ready[l]; i' < |r| && r[i'] == s.ready[l][i]
  {
    if e.DoGet? {
      GetConservesWork(s);
      hide Get;
      WithoutMembers(s.ready[l], Best(s.ready[l]));
    }
    FollowStep(s, e, l, i);
  }

  lemma {:induction false} StaysMeansWaits(o: Os, run: seq<Actor>, l: nat, p: Proc, i: nat)
    requires CpuLoop.Inv(o) && CpuRuns.Runnable(o, run) && l < MAX_PRIO && StaysQueued(o, run, l, p)
    requires i < |o.sched.ready[l]| && o.sched.ready[l][i] == p
    ensures Waits(o.sched, AllCalls(o, run), l, i)
    decreases |run|
  {
    if run == [] {
    } else {
      var o1 := Act(o, run[0]).0;
      var calls := Calls(o, run[0]);
      ActKeeps(o, run[0]);
      ActIsItsCall(o, run[0]);
      assert Distinct(o.sched.ready[l]) && StaysQueued(o1, run[1..], l, p) && p in o1.sched.ready[l];
      hide Act, Exec, CpuLoop.Inv, Calls, StaysQueued;
      if calls == [] {
        StaysMeansWaits(o1, run[1..], l, p, i);
        assert calls + AllCalls(o1, run[1..]) == AllCalls(o1, run[1..]);
      } else {
        StillThere(o.sched, calls[0], l, i);
        StaysMeansWaits(o1, run[1..], l, p, Follow(o.sched, calls[0], l, i).value);
        assert (calls + AllCalls(o1, run[1..]))[1..] == AllCalls(o1, run[1..]);
      }
    }
  }

  /** In the simulator, whatever its CPUs and its loader do: a queued process is in the queue of its
      own `prio`; and while it stays there with k others ahead of it, and j more overtake it, the
      CPUs call get_proc fewer than (k + j + 1) * 9870 times. */
  lemma QueuedProcessIsFetched(o: Os, run: seq<Actor>, l: nat, p: Proc, i: nat)
    requires CpuLoop.Inv(o) && CpuRuns.Runnable(o, run) && l < 140 && StaysQueued(o, run, l, p)
    requires i < |o.sched.ready[l]| && o.sched.ready[l][i] == p
    ensures BelongsTo(p, l)
    ensures var k := Ahead(o.sched.ready[l], i); var j := Overtakings(AllCalls(o, run), l, p.priority);
            Gets(AllCalls(o, run)) < (k + j + 1) * 9870
  {
    QueueIsOfItsLevel(o, l, p);
    LevelIsOwn(p);
    StaysMeansWaits(o, run, l, p, i);
    ProcessWaitIsBounded(o.sched, AllCalls(o, run), l, i);
  }

  /** When all programs have the same default priority, nobody ever overtakes. */
  lemma {:induction false} EqualProgramsNeverOvertake(o: Os, run: seq<Actor>, l: nat, v: nat)
    requires CpuLoop.Inv(o) && CpuRuns.Runnable(o, run)
    requires forall p :: p in o.programs ==> p.priority == v
    ensures Overtakings(AllCalls(o, run), l, v) == 0
    decreases |run|
  {
    if run == [] {
    } else {
      var o1 := Act(o, run[0]).0;
      var calls := Calls(o, run[0]);
      ActKeeps(o, run[0]);
      ActLoads(o, run[0]);
      EqualProgramsNeverOvertake(o1, run[1..], l, v);
      if calls != [] {
        CallsOfPrograms(o, run[0]);
        assert calls == [calls[0]] && (calls + AllCalls(o1, run[1..]))[1..] == AllCalls(o1, run[1..]);
      } else {
        assert calls + AllCalls(o1, run[1..]) == AllCalls(o1, run[1..]);
      }
    }
  }

  lemma CallsOfPrograms(o: Os, a: Actor)
    requires CpuLoop.Inv(o) && CpuRuns.Enabled(o, a) && Calls(o, a) != []
    ensures |Calls(o, a)| == 1 && (Calls(o, a)[0].DoPut? || Calls(o, a)[0].DoAdd? ==> Calls(o, a)[0].p in o.programs)
  {
    if a.CpuTurn? && o.cpus[a.c].proc.Some? { HolderIsLive(o, a.c, o.cpus[a.c].proc.value); }
  }

  /** So with equal priorities a process at place i of its queue waits for fewer than
      (i + 1) * 9870 calls. */
  lemma EqualProgramsTakeTurns(o: Os, run: seq<Actor>, l: nat, p: Proc, i: nat)
    requires CpuLoop.Inv(o) && CpuRuns.Runnable(o, run) && l < 140 && StaysQueued(o, run, l, p)
    requires i < |o.sched.ready[l]| && o.sched.ready[l][i] == p
    requires forall x :: x in o.programs ==> x.priority == p.priority
    ensures BelongsTo(p, l) && Gets(AllCalls(o, run)) < (i + 1) * 9870
  {
    var q := o.sched.ready[l];
    forall j | 0 <= j < |q|
      ensures q[j].priority == q[i].priority
    {
      assert q[j] in q && q[j] in LiveSet(o);
    }
    QueuedProcessIsFetched(o, run, l, p, i);
    EqualProgramsNeverOvertake(o, run, l, p.priority);
    EqualPrioritiesQueueUp(q, i);
  }

  /** After any run, get_proc hands out a process from the queue of its own `prio`. */
  lemma DispatchedFromOwnLevel(o: Os, run: seq<Actor>)
    requires CpuLoop.Inv(o) && CpuRuns.Runnable(o, run)
    ensures var got := Get(CpuRuns.Final(o, run).sched).1;
            got.Served? ==> got.level < 140 && BelongsTo(got.p, got.level)
  {
    var o' := CpuRuns.Final(o, run);
    hide CpuRuns.Final;
    if Get(o'.sched).1.Served? {
      GetMoves(o');
      QueueIsOfItsLevel(o', Get(o'.sched).1.level, Get(o'.sched).1.p);
      LevelIsOwn(Get(o'.sched).1.p);
    }
  }
}
