/** How long a level, and a process in it, can wait (src/sched.c, src/queue.c). */
module MlqFairness {
  import opened Options
  import opened ReadyQueue
  import opened Mlq

  /** One locked section of the scheduler. */
  datatype Step = DoGet | DoPut(p: Proc) | DoAdd(p: Proc) | DoFinish(p: Proc)

  function Exec(s: Sched, e: Step): (r: (Sched, Served))
    requires Valid(s)
    ensures Valid(r.0)
  {
    match e
    case DoGet => Get(s)
    case DoPut(p) => (PutBack(s, p), Nobody)
    case DoAdd(p) => (Add(s, p), Nobody)
    case DoFinish(p) => (Finish(s, p), Nobody)
  }

  function Gets(run: seq<Step>): nat {
    if run == [] then 0 else (if run[0].DoGet? then 1 else 0) + Gets(run[1..])
  }

  // ---- waiting for a level --------------------------------------------------

  /** The slots of levels l, l + 1, ... up to but not including q, cyclically. */
  function Lap(l: nat, q: nat): nat
    requires l < MAX_PRIO && q < MAX_PRIO
    decreases Distance(l, q)
  {
    if l == q then 0 else MAX_PRIO - l + Lap(Next(l), q)
  }

  /** Services the other levels can still take before the cursor reaches q. */
  function Rank(s: Sched, q: nat): nat
    requires Valid(s) && q < MAX_PRIO
  {
    if s.prio == q then 0 else s.slot + Lap(Next(s.prio), q)
  }

  /** 140 + 139 + ... for the levels below l. */
  function Before(l: nat): nat
    requires l <= MAX_PRIO
  {
    l * (2 * MAX_PRIO + 1 - l) / 2
  }

  lemma {:induction false} LapClosed(l: nat, q: nat)
    requires l < MAX_PRIO && q < MAX_PRIO
    ensures Lap(l, q) + Before(l) == Before(q) + if l <= q then 0 else ALL_SLOTS
    decreases Distance(l, q)
  {
    hide Before, Next;
    BeforeStep(l);
    if l == q {
    } else {
      LapClosed(Next(l), q);
    }
  }

  lemma BeforeStep(l: nat)
    requires l < MAX_PRIO
    ensures Before(l + 1) == Before(l) + MAX_PRIO - l && Before(0) == 0 && Before(MAX_PRIO) == ALL_SLOTS
  {
    assert (l + 1) * (281 - (l + 1)) == l * (281 - l) + 2 * (140 - l);
  }

  lemma {:induction false} BeforeGrows(l: nat, k: nat)
    requires l <= k <= MAX_PRIO
    ensures Before(l) <= Before(k)
    decreases k
  {
    if l == k {
    } else {
      BeforeGrows(l, k - 1);
      BeforeStep(k - 1);
    }
  }

  /** The rank never exceeds the slots of all the other levels. */
  lemma RankBound(s: Sched, q: nat)
    requires Valid(s) && q < MAX_PRIO
    ensures Rank(s, q) <= 9870 - (140 - q)
  {
    LapClosed(s.prio, q);
    BeforeStep(q);
    if s.prio < q {
      BeforeGrows(q, MAX_PRIO);
      BeforeStep(0);
      BeforeGrows(q + 1, MAX_PRIO);
    } else if q < s.prio {
      BeforeGrows(q + 1, s.prio);
    }
  }

  /** Each call serves the waiting level or uses up part of its rank. */
  lemma {:induction false} ScanLowersRank(s: Sched, checked: nat, q: nat)
    requires Valid(s) && q < MAX_PRIO && s.ready[q] != [] && checked + Distance(s.prio, q) < MAX_PRIO
    ensures var (s', got) := Scan(s, checked);
            && got.Served? && got.level < MAX_PRIO
            && (got.level == q || (s'.ready[q] == s.ready[q] && Rank(s', q) < Rank(s, q)))
    decreases Distance(s.prio, q)
  {
    if s.ready[s.prio] == [] {
      ScanLowersRank(Advance(s), checked + 1, q);
    }
  }

  lemma GetLowersRank(s: Sched, q: nat)
    requires Valid(s) && q < MAX_PRIO && s.ready[q] != []
    ensures var (s', got) := Get(s);
            && got.Served? && got.level < MAX_PRIO
            && (got.level == q || (s'.ready[q] == s.ready[q] && Rank(s', q) < Rank(s, q)))
  {
    ScanLowersRank(s, 0, q);
  }

  /** Level q has work before every step of the run and no step serves it. */
  predicate Starves(s: Sched, run: seq<Step>, q: nat)
    requires Valid(s) && q < MAX_PRIO
    decreases |run|
  {
    run == [] ||
    (var (s', got) := Exec(s, run[0]);
     s.ready[q] != [] && (got.Served? ==> got.level != q) && Starves(s', run[1..], q))
  }

  /** A level with work is served within 9870 - (140 - q) + 1 calls, however calls that return or
      add processes come between. */
  lemma {:induction false} LevelWaitIsBounded(s: Sched, run: seq<Step>, q: nat)
    requires Valid(s) && q < MAX_PRIO && Starves(s, run, q)
    ensures Gets(run) <= Rank(s, q) <= 9870 - (140 - q)
    decreases |run|
  {
    RankBound(s, q);
    if run == [] {
    } else {
      if run[0].DoGet? { GetLowersRank(s, q); }
      LevelWaitIsBounded(Exec(s, run[0]).0, run[1..], q);
    }
  }

  // ---- one level's burst ------------------------------------------------------

  /** Every call of the run serves level p, while level q has work throughout. */
  predicate Hogs(s: Sched, run: seq<Step>, p: nat, q: nat)
    requires Valid(s) && q < MAX_PRIO
    decreases |run|
  {
    run == [] ||
    (var (s', got) := Exec(s, run[0]);
     s.ready[q] != [] && (run[0].DoGet? ==> got.Served? && got.level == p) && Hogs(s', run[1..], p, q))
  }

  function Burst(s: Sched, p: nat): nat
    requires Valid(s) && p < MAX_PRIO
  {
    if s.prio == p then s.slot else if s.prio == Next(p) then 0 else MAX_PRIO - p
  }

  /** A level that is not at the cursor is served only when every level before it is empty, and
      then with its full slots. */
  lemma {:induction false} ScanReaches(s: Sched, checked: nat, p: nat)
    requires Valid(s) && p < MAX_PRIO && checked < MAX_PRIO && Scan(s, checked).1.Served?
    requires Scan(s, checked).1.level == p
    ensures s.ready[p] != [] && checked + Distance(s.prio, p) < MAX_PRIO
    ensures forall e :: 0 <= e < Distance(s.prio, p) ==> s.ready[Cyclic(s.prio, e)] == []
    ensures var s' := Scan(s, checked).0; var full := if s.prio == p then s.slot else MAX_PRIO - p;
            if full == 1 then s'.prio == Next(p) else s'.prio == p && s'.slot == full - 1
    decreases MAX_PRIO - checked
  {
    hide Cyclic, Next, Best;
    if s.ready[s.prio] == [] && checked + 1 < MAX_PRIO {
      ScanReaches(Advance(s), checked + 1, p);
      forall e | 0 < e < Distance(s.prio, p)
        ensures s.ready[Cyclic(s.prio, e)] == []
      {
        assert s.ready[Cyclic(Next(s.prio), e - 1)] == [];
      }
    }
  }

  lemma FarthestIsSelf(p: nat, q: nat)
    requires p < MAX_PRIO && q < MAX_PRIO && p != q
    ensures Distance(Next(p), q) < Distance(Next(p), p)
  {
    hide Cyclic, Next;
  }

  lemma NotStraightAfter(s: Sched, p: nat, q: nat)
    requires Valid(s) && p < MAX_PRIO && q < MAX_PRIO && p != q && s.ready[q] != []
    requires Get(s).1.Served? && Get(s).1.level == p
    ensures s.prio != Next(p)
  {
    ScanReaches(s, 0, p);
    hide Scan, Get, Next;
    if s.prio == Next(p) {
      FarthestIsSelf(p, q);
      assert false;
    }
  }

  lemma BurstStep(s: Sched, p: nat, q: nat)
    requires Valid(s) && p < MAX_PRIO && q < MAX_PRIO && p != q && s.ready[q] != []
    requires Get(s).1.Served? && Get(s).1.level == p
    ensures Burst(Get(s).0, p) + 1 <= Burst(s, p)
  {
    NotStraightAfter(s, p, q);
    ScanReaches(s, 0, p);
  }

  /** While another level has work, a level is served at most 140 - p times in a row. */
  lemma {:induction false} BurstIsBounded(s: Sched, run: seq<Step>, p: nat, q: nat)
    requires Valid(s) && p < MAX_PRIO && q < MAX_PRIO && p != q && Hogs(s, run, p, q)
    ensures Gets(run) <= Burst(s, p) <= 140 - p
    decreases |run|
  {
    if run == [] {
    } else {
      hide Get, Valid;
      if run[0].DoGet? { BurstStep(s, p, q); }
      BurstIsBounded(Exec(s, run[0]).0, run[1..], p, q);
    }
  }

  /** Every call of the run serves level p. */
  predicate AllFrom(s: Sched, run: seq<Step>, p: nat)
    requires Valid(s)
    decreases |run|
  {
    run == [] ||
    (var (s', got) := Exec(s, run[0]);
     (run[0].DoGet? ==> got.Served? && got.level == p) && AllFrom(s', run[1..], p))
  }

  lemma {:induction false} NoCalls(s: Sched, run: seq<Step>, p: nat)
    requires Valid(s) && Gets(run) == 0
    ensures AllFrom(s, run, p)
    decreases |run|
  {
    if run == [] {
    } else {
      NoCalls(Exec(s, run[0]).0, run[1..], p);
    }
  }

  lemma StepOfBurst(s: Sched, e: Step, p: nat)
    requires Valid(s) && p < MAX_PRIO && s.prio == p && s.ready[p] != []
    ensures var (s', got) := Exec(s, e);
            if e.DoGet? then got.Served? && got.level == p && |s'.ready[p]| == |s.ready[p]| - 1
                             && (s.slot > 1 ==> s'.prio == p && s'.slot == s.slot - 1)
            else |s.ready[p]| <= |s'.ready[p]| && s'.prio == p && s'.slot == s.slot
  {
  }

  /** And while it has work it gets all its slots, one call after the other, whatever is put, added or
      finished in between: 140 - p of them when the cursor comes to it. */
  lemma {:induction false} BurstIsFull(s: Sched, run: seq<Step>, p: nat)
    requires Valid(s) && p < MAX_PRIO && s.prio == p && Gets(run) <= s.slot && Gets(run) <= |s.ready[p]|
    ensures AllFrom(s, run, p)
    decreases |run|
  {
    if Gets(run) == 0 {
      NoCalls(s, run, p);
    } else {
      StepOfBurst(s, run[0], p);
      hide Exec, Valid;
      if run[0].DoGet? && s.slot == 1 {
        NoCalls(Exec(s, run[0]).0, run[1..], p);
      } else {
        BurstIsFull(Exec(s, run[0]).0, run[1..], p);
      }
    }
  }

  // ---- waiting for a process ---------------------------------------------------

  function CountUpTo(q: seq<Proc>, v: nat): nat {
    if q == [] then 0 else (if q[0].priority <= v then 1 else 0) + CountUpTo(q[1..], v)
  }

  /** How many entries of its queue dequeue takes before the i-th one. */
  function Ahead(q: seq<Proc>, i: nat): nat
    requires i < |q|
  {
    CountUpTo(q[..i], q[i].priority) + if q[i].priority == 0 then 0 else CountUpTo(q[i + 1..], q[i].priority - 1)
  }

  lemma {:induction false} CountConcat(a: seq<Proc>, b: seq<Proc>, v: nat)
    ensures CountUpTo(a + b, v) == CountUpTo(a, v) + CountUpTo(b, v)
  {
    if a == [] {
      assert a + b == b;
    } else {
      assert (a + b)[1..] == a[1..] + b;
      CountConcat(a[1..], b, v);
    }
  }

  lemma CountWithout(q: seq<Proc>, j: nat, v: nat)
    requires j < |q|
    ensures CountUpTo(q, v) == CountUpTo(Without(q, j), v) + if q[j].priority <= v then 1 else 0
  {
    assert q == q[..j] + q[j..] && q[j..][1..] == q[j + 1..];
    CountConcat(q[..j], q[j..], v);
    CountConcat(q[..j], q[j + 1..], v);
  }

  /** With equal numbers, as in a round-robin level, the entries ahead are those in front. */
  lemma {:induction false} EqualPrioritiesQueueUp(q: seq<Proc>, i: nat)
    requires i < |q| && forall j :: 0 <= j < |q| ==> q[j].priority == q[i].priority
    ensures Ahead(q, i) == i
  {
    AllCount(q[..i], q[i].priority);
    if q[i].priority > 0 { NoneCount(q[i + 1..], q[i].priority - 1); }
  }

  lemma {:induction false} AllCount(q: seq<Proc>, v: nat)
    requires forall j :: 0 <= j < |q| ==> q[j].priority <= v
    ensures CountUpTo(q, v) == |q|
  {
    if q == [] {
    } else {
      AllCount(q[1..], v);
    }
  }

  lemma {:induction false} NoneCount(q: seq<Proc>, v: nat)
    requires forall j :: 0 <= j < |q| ==> q[j].priority > v
    ensures CountUpTo(q, v) == 0
  {
    if q == [] {
    } else {
      NoneCount(q[1..], v);
    }
  }

  /** Where the i-th entry stands once entry b has been taken. */
  function Shifted(i: nat, b: nat): nat {
    if b < i then i - 1 else i
  }

  lemma TakingOneAhead(q: seq<Proc>, i: nat, b: nat)
    requires i < |q| && b < |q| && b != i
    requires q[b].priority <= q[i].priority && (i < b ==> q[b].priority < q[i].priority)
    ensures var q' := Without(q, b); var i' := Shifted(i, b);
            i' < |q'| && q'[i'] == q[i] && Ahead(q', i') + 1 == Ahead(q, i)
  {
    hide Without, CountUpTo;
    WithoutParts(q, i, b);
    if b < i {
      OneFewerInFront(q, i, b);
    } else {
      OneFewerBehind(q, i, b);
    }
  }

  lemma OneFewerInFront(q: seq<Proc>, i: nat, b: nat)
    requires b < i < |q| && q[b].priority <= q[i].priority
    ensures CountUpTo(q[..i], q[i].priority) == CountUpTo(Without(q[..i], b), q[i].priority) + 1
  {
    hide Without, CountUpTo;
    CountWithout(q[..i], b, q[i].priority);
  }

  lemma OneFewerBehind(q: seq<Proc>, i: nat, b: nat)
    requires i < b < |q| && q[b].priority < q[i].priority
    ensures var v := q[i].priority - 1;
            CountUpTo(q[i + 1..], v) == CountUpTo(Without(q[i + 1..], b - i - 1), v) + 1
  {
    hide Without, CountUpTo;
    CountWithout(q[i + 1..], b - i - 1, q[i].priority - 1);
  }

  lemma TakingBestAdvances(q: seq<Proc>, i: nat)
    requires i < |q| && i != Best(q)
    ensures var b := Best(q); var q' := Without(q, b); var i' := Shifted(i, b);
            i' < |q'| && q'[i'] == q[i] && Ahead(q', i') + 1 == Ahead(q, i)
  {
    TakingOneAhead(q, i, Best(q));
  }

  lemma WithoutParts(q: seq<Proc>, i: nat, b: nat)
    requires i < |q| && b < |q| && b != i
    ensures var q' := Without(q, b); var i' := Shifted(i, b);
            && i' < |q'| && q'[i'] == q[i]
            && q'[..i'] == (if b < i then Without(q[..i], b) else q[..i])
            && q'[i' + 1..] == (if b < i then q[i + 1..] else Without(q[i + 1..], b - i - 1))
  {
    var q' := Without(q, b);
    if b < i {
      assert q'[..i - 1] == Without(q[..i], b);
      assert q'[i..] == q[i + 1..];
    } else {
      assert q'[..i] == q[..i];
      assert q'[i + 1..] == Without(q[i + 1..], b - i - 1);
    }
  }

  lemma ArrivalsQueueBehind(q: seq<Proc>, p: Proc, i: nat)
    requires i < |q| && q[i].priority <= p.priority
    ensures i < |Put(q, p)| && Put(q, p)[i] == q[i] && Ahead(Put(q, p), i) == Ahead(q, i)
  {
    if |q| < MAX_QUEUE_SIZE {
      assert (q + [p])[..i] == q[..i] && (q + [p])[i + 1..] == q[i + 1..] + [p];
      if q[i].priority > 0 { CountConcat(q[i + 1..], [p], q[i].priority - 1); }
    }
  }

  /** The i-th process of level l is still there after the step, at this index; `None` when the
      step dispatched it. */
  function Follow(s: Sched, e: Step, l: nat, i: nat): Option<nat>
    requires Valid(s) && l < MAX_PRIO && i < |s.ready[l]|
  {
    if e.DoGet? && Get(s).1.Served? && Get(s).1.level == l then
      if Best(s.ready[l]) == i then None else Some(Shifted(i, Best(s.ready[l])))
    else Some(i)
  }

  /** The step makes a process with a smaller number join the level. */
  predicate Overtakes(e: Step, l: nat, v: nat) {
    (e.DoPut? || e.DoAdd?) && Level(e.p) == l && e.p.priority < v
  }

  function Overtakings(run: seq<Step>, l: nat, v: nat): nat {
    if run == [] then 0 else (if Overtakes(run[0], l, v) then 1 else 0) + Overtakings(run[1..], l, v)
  }

  lemma FollowStep(s: Sched, e: Step, l: nat, i: nat)
    requires Valid(s) && l < MAX_PRIO && i < |s.ready[l]| && Follow(s, e, l, i).Some?
    ensures var s' := Exec(s, e).0; var i' := Follow(s, e, l, i).value;
            && i' < |s'.ready[l]| && s'.ready[l][i'] == s.ready[l][i]
            && Ahead(s'.ready[l], i') * ALL_SLOTS + Rank(s', l) + (if e.DoGet? then 1 else 0)
               <= (Ahead(s.ready[l], i) + if Overtakes(e, l, s.ready[l][i].priority) then 1 else 0) * ALL_SLOTS
                  + Rank(s, l)
  {
    var s' := Exec(s, e).0;
    match e
    case DoGet =>
      GetLowersRank(s, l);
      GetConservesWork(s);
      RankBound(s', l);
      if Get(s).1.level == l { TakingBestAdvances(s.ready[l], i); }
    case DoPut(p) => ArrivalsIn(s, p, l, i);
    case DoAdd(p) => ArrivalsIn(s, p, l, i);
    case DoFinish(p) =>
  }

  lemma ArrivalsIn(s: Sched, p: Proc, l: nat, i: nat)
    requires Valid(s) && l < MAX_PRIO && i < |s.ready[l]|
    ensures var r := s.ready[Level(p) := Put(s.ready[Level(p)], p)];
            && i < |r[l]| && r[l][i] == s.ready[l][i]
            && Ahead(r[l], i)
               <= Ahead(s.ready[l], i) + if Level(p) == l && p.priority < s.ready[l][i].priority then 1 else 0
  {
    if Level(p) == l {
      if s.ready[l][i].priority <= p.priority {
        ArrivalsQueueBehind(s.ready[l], p, i);
      } else {
        ArrivalOvertakes(s.ready[l], p, i);
      }
    }
  }

  /** A process with a smaller number that finds room goes ahead of the i-th, and nobody else does. */
  lemma ArrivalOvertakes(q: seq<Proc>, p: Proc, i: nat)
    requires i < |q| && p.priority < q[i].priority
    ensures i < |Put(q, p)| && Put(q, p)[i] == q[i]
    ensures Ahead(Put(q, p), i) == Ahead(q, i) + if |q| < 50 then 1 else 0
  {
    if |q| < MAX_QUEUE_SIZE {
      assert (q + [p])[..i] == q[..i] && (q + [p])[i + 1..] == q[i + 1..] + [p];
      CountConcat(q[i + 1..], [p], q[i].priority - 1);
    }
  }

  /** No step of the run dispatches the i-th process of level l. */
  predicate Waits(s: Sched, run: seq<Step>, l: nat, i: nat)
    requires Valid(s) && l < MAX_PRIO && i < |s.ready[l]|
    decreases |run|
  {
    run == [] ||
    (&& Follow(s, run[0], l, i).Some?
     && (FollowStep(s, run[0], l, i); Waits(Exec(s, run[0]).0, run[1..], l, Follow(s, run[0], l, i).value)))
  }

  /** A process with k others ahead of it, and j more that overtake it while it waits, is dispatched
      within (k + j + 1) * 9870 calls.  With equal numbers nobody overtakes. */
  lemma {:induction false} ProcessWaitIsBounded(s: Sched, run: seq<Step>, l: nat, i: nat)
    requires Valid(s) && l < MAX_PRIO && i < |s.ready[l]| && Waits(s, run, l, i)
    ensures var k := Ahead(s.ready[l], i); var j := Overtakings(run, l, s.ready[l][i].priority);
            Gets(run) <= (k + j) * 9870 + Rank(s, l) < (k + j + 1) * 9870
    decreases |run|
  {
    RankBound(s, l);
    if run == [] {
    } else {
      FollowStep(s, run[0], l, i);
      ProcessWaitIsBounded(Exec(s, run[0]).0, run[1..], l, Follow(s, run[0], l, i).value);
    }
  }

  // ---- without equal numbers ----------------------------------------------------

  /** A process that runs, is put back, runs again, n times. */
  function Rounds(y: Proc, n: nat): (r: seq<Step>)
    ensures Gets(r) == n
  {
    if n == 0 then [] else
      assert ([DoGet, DoPut(y)] + Rounds(y, n - 1))[1..][1..] == Rounds(y, n - 1);
      [DoGet, DoPut(y)] + Rounds(y, n - 1)
  }

  predicate OnlyServes(s: Sched, run: seq<Step>, y: Proc)
    requires Valid(s)
    decreases |run|
  {
    run == [] ||
    (var (s', got) := Exec(s, run[0]);
     (run[0].DoGet? ==> got.Served? && got.p == y) && OnlyServes(s', run[1..], y))
  }

  lemma OneRound(s: Sched, l: nat, x: Proc, y: Proc)
    requires Valid(s) && l < MAX_PRIO && s.ready[l] == [x, y] && y.priority < x.priority && Level(y) == l
    requires forall k :: 0 <= k < MAX_PRIO && k != l ==> s.ready[k] == []
    ensures Get(s).1 == Served(y, l) && PutBack(Get(s).0, y).ready == s.ready
  {
    SecondIsBest(x, y);
    GetConservesWork(s);
    hide Get, Best, Without, Put;
    assert Get(s).1 == Served(y, l);
    var r := PutBack(Get(s).0, y).ready;
    PutAfter(x, y);
    assert r[l] == [x, y];
  }

  lemma SecondIsBest(x: Proc, y: Proc)
    requires y.priority < x.priority
    ensures Best([x, y]) == 1 && Without([x, y], 1) == [x]
  {
  }

  lemma PutAfter(x: Proc, y: Proc)
    ensures Put([x], y) == [x, y]
  {
  }

  lemma NextRound(y: Proc, n: nat)
    requires n > 0
    ensures var run := Rounds(y, n);
            |run| >= 2 && run[0] == DoGet && run[1..][0] == DoPut(y) && run[1..][1..] == Rounds(y, n - 1)
  {
  }

  /** A level is not round-robin: beside a process with a smaller number that keeps coming back,
      a process waits through any number of calls. */
  lemma {:induction false} SmallerNumberStarves(s: Sched, l: nat, x: Proc, y: Proc, n: nat)
    requires Valid(s) && l < MAX_PRIO && s.ready[l] == [x, y] && y.priority < x.priority && Level(y) == l
    requires forall k :: 0 <= k < MAX_PRIO && k != l ==> s.ready[k] == []
    ensures OnlyServes(s, Rounds(y, n), y)
    decreases n
  {
    hide Get, PutBack;
    if n == 0 {
    } else {
      OneRound(s, l, x, y);
      var s1 := Get(s).0;
      SmallerNumberStarves(PutBack(s1, y), l, x, y, n - 1);
      NextRound(y, n);
      hide Rounds;
      assert OnlyServes(s1, Rounds(y, n)[1..], y);
    }
  }

  /** Such a level is reached by adding two processes to a new scheduler. */
  lemma StarvationIsReached(l: nat, x: Proc, y: Proc, n: nat)
    requires l < MAX_PRIO && Level(x) == l && Level(y) == l && y.priority < x.priority
    ensures var s := Exec(Exec(NewSched(), DoAdd(x)).0, DoAdd(y)).0;
            s.ready[l] == [x, y] && OnlyServes(s, Rounds(y, n), y)
  {
    var s := Add(Add(NewSched(), x), y);
    assert s.ready[l] == [x, y];
    SmallerNumberStarves(s, l, x, y, n);
  }
}
