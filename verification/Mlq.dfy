/** The multi-level queue scheduler with its persistent cursor (src/sched.c). */
module Mlq {
  import opened ReadyQueue

  const MAX_PRIO: nat := 140
  const ALL_SLOTS: nat := 9870          // 140 + 139 + ... + 1

  /** The 140 ready queues, the running list, and the static curr_prio and curr_slot. */
  datatype Sched = Sched(ready: seq<seq<Proc>>, running: seq<Proc>, prio: nat, slot: nat)

  /** What get_mlq_proc hands out: the process and the level it came from. */
  datatype Served = Nobody | Served(p: Proc, level: nat)

  predicate Valid(s: Sched) {
    |s.ready| == MAX_PRIO && s.prio < MAX_PRIO && 1 <= s.slot <= MAX_PRIO - s.prio
  }

  /** init_scheduler, with the cursor's static initial values. */
  function NewSched(): (s: Sched)
    ensures Valid(s)
  {
    Sched(seq(MAX_PRIO, _ => []), [], 0, MAX_PRIO)
  }

  /** An invalid level is clamped to 0. */
  function Level(p: Proc): (l: nat)
    ensures l < MAX_PRIO
  {
    if p.prio < MAX_PRIO then p.prio else 0
  }

  function Next(l: nat): (n: nat)
    ensures l < MAX_PRIO ==> n == if l + 1 < MAX_PRIO then l + 1 else 0
  {
    (l + 1) % MAX_PRIO
  }

  /** The cursor leaves its level. */
  function Advance(s: Sched): (s': Sched)
    requires Valid(s)
    ensures Valid(s')
  {
    s.(prio := Next(s.prio), slot := MAX_PRIO - Next(s.prio))
  }

  /** One process of the cursor's level, using up one of its slots. */
  function Serve(s: Sched): (s': Sched)
    requires Valid(s) && s.ready[s.prio] != []
    ensures Valid(s')
  {
    var q := s.ready[s.prio];
    var s1 := s.(ready := s.ready[s.prio := Without(q, Best(q))]);
    if s.slot == 1 then Advance(s1) else s1.(slot := s.slot - 1)
  }

  /** The loop of get_mlq_proc after `checked` levels were found empty. */
  function Scan(s: Sched, checked: nat): (r: (Sched, Served))
    requires Valid(s)
    ensures Valid(r.0)
    decreases MAX_PRIO - checked
  {
    if checked >= MAX_PRIO then (s, Nobody)
    else if s.ready[s.prio] != [] then (Serve(s), Served(s.ready[s.prio][Best(s.ready[s.prio])], s.prio))
    else Scan(Advance(s), checked + 1)
  }

  function Get(s: Sched): (r: (Sched, Served))
    requires Valid(s)
    ensures Valid(r.0)
  {
    var (s', got) := Scan(s, 0);
    (if got.Served? then s'.(running := Put(s'.running, got.p)) else s', got)
  }

  function PutBack(s: Sched, p: Proc): (s': Sched)
    requires Valid(s)
    ensures Valid(s')
  {
    s.(running := Purge(s.running, p), ready := s.ready[Level(p) := Put(s.ready[Level(p)], p)])
  }

  function Add(s: Sched, p: Proc): (s': Sched)
    requires Valid(s)
    ensures Valid(s')
  {
    s.(ready := s.ready[Level(p) := Put(s.ready[Level(p)], p)])
  }

  function Finish(s: Sched, p: Proc): (s': Sched)
    requires Valid(s)
    ensures Valid(s')
  {
    s.(running := Purge(s.running, p))
  }

  // ---- which queue a process joins ------------------------------------------------------

  /** The level a process belongs to: its `prio`, or 0 if that is no level. */
  predicate BelongsTo(p: Proc, l: nat) {
    if p.prio < 140 then l == p.prio else l == 0
  }

  /** Queue l got p at its end if fewer than 50 were there; no other queue changed. */
  predicate Joins(ready: seq<seq<Proc>>, ready': seq<seq<Proc>>, l: nat, p: Proc) {
    && |ready| == |ready'| == 140 && l < 140
    && ready'[l] == (if |ready[l]| < 50 then ready[l] + [p] else ready[l])
    && forall k :: 0 <= k < 140 && k != l ==> ready'[k] == ready[k]
  }

  lemma LevelIsOwn(p: Proc)
    ensures BelongsTo(p, Level(p)) && forall l: nat :: BelongsTo(p, l) ==> l == Level(p)
  {
  }

  /** add_mlq_proc: the process joins the queue of its own level. */
  lemma AddJoins(s: Sched, p: Proc, l: nat)
    requires Valid(s) && BelongsTo(p, l)
    ensures Joins(s.ready, Add(s, p).ready, l, p) && Add(s, p) == s.(ready := Add(s, p).ready)
  {
    LevelIsOwn(p);
  }

  /** put_mlq_proc: so it does when it comes back, and it leaves the running list. */
  lemma PutBackJoins(s: Sched, p: Proc, l: nat)
    requires Valid(s) && BelongsTo(p, l)
    ensures Joins(s.ready, PutBack(s, p).ready, l, p)
    ensures PutBack(s, p) == s.(ready := PutBack(s, p).ready, running := PutBack(s, p).running)
    ensures p !in s.running ==> PutBack(s, p).running == s.running
    ensures forall i :: 0 <= i < |s.running| && s.running[i] == p && p !in s.running[..i] ==>
              PutBack(s, p).running == s.running[..i] + s.running[i + 1..]
  {
    LevelIsOwn(p);
    PurgeIs(s.running, p);
    hide Purge;
  }

  lemma PurgeIs(q: seq<Proc>, p: Proc)
    ensures p !in q ==> Purge(q, p) == q
    ensures forall i :: 0 <= i < |q| && q[i] == p && p !in q[..i] ==> Purge(q, p) == q[..i] + q[i + 1..]
  {
    var k := IndexOf(q, p);
    forall i | 0 <= i < |q| && q[i] == p && p !in q[..i]
      ensures i == k
    {
      assert forall j :: 0 <= j < i ==> q[j] == q[..i][j];
    }
  }

  // ---- one call of get_mlq_proc --------------------------------------------

  /** The d-th level from the cursor, cyclically. */
  function Cyclic(l: nat, d: nat): (n: nat)
    ensures l < MAX_PRIO && d <= MAX_PRIO ==> n == if l + d < MAX_PRIO then l + d else l + d - MAX_PRIO
  {
    (l + d) % MAX_PRIO
  }

  /** Level l had so many slots left and one of them was used: the cursor stays while any is left,
      and else moves to the next level with all of that level's. */
  predicate UsesSlot(l: nat, slots: nat, s': Sched) {
    if slots > 1 then s'.prio == l && s'.slot == slots - 1
    else s'.prio == (if l == 139 then 0 else l + 1) && s'.slot == 140 - s'.prio
  }

  /** The scan serves the first non-empty level in cyclic order and nothing else; a level that the
      cursor had to move to has all its slots. */
  lemma {:induction false} ScanServes(s: Sched, checked: nat, d: nat)
    requires Valid(s) && checked + d < MAX_PRIO && s.ready[Cyclic(s.prio, d)] != []
    requires forall e :: 0 <= e < d ==> s.ready[Cyclic(s.prio, e)] == []
    ensures var l := Cyclic(s.prio, d); var (s', got) := Scan(s, checked);
            && got == Served(s.ready[l][Best(s.ready[l])], l)
            && s'.ready == s.ready[l := Without(s.ready[l], Best(s.ready[l]))] && s'.running == s.running
            && UsesSlot(l, if d == 0 then s.slot else 140 - l, s')
    decreases d
  {
    hide Cyclic, Next, Best;
    if d == 0 {
    } else {
      assert s.ready[Cyclic(s.prio, 0)] == [];
      forall e | 0 <= e < d - 1
        ensures s.ready[Cyclic(Next(s.prio), e)] == []
      {
        assert s.ready[Cyclic(s.prio, e + 1)] == [];
      }
      ScanServes(Advance(s), checked + 1, d - 1);
    }
  }

  lemma {:induction false} ScanFindsNothing(s: Sched, checked: nat)
    requires Valid(s) && checked <= MAX_PRIO
    requires forall l :: 0 <= l < MAX_PRIO ==> s.ready[l] == []
    ensures Scan(s, checked).1 == Nobody && Scan(s, checked).0.ready == s.ready
    ensures Scan(s, checked).0.running == s.running
    ensures Scan(s, checked).0.prio == Cyclic(s.prio, MAX_PRIO - checked)
    ensures checked < MAX_PRIO ==> Scan(s, checked).0.slot == 140 - Scan(s, checked).0.prio
    decreases MAX_PRIO - checked
  {
    hide Cyclic, Next;
    if checked == MAX_PRIO {
    } else {
      ScanFindsNothing(Advance(s), checked + 1);
    }
  }

  /** How far the first non-empty level lies ahead of the cursor. */
  lemma {:induction false} FirstNonEmpty(s: Sched, l: nat, n: nat) returns (d: nat)
    requires Valid(s) && l < MAX_PRIO && s.ready[l] != [] && n < MAX_PRIO && Cyclic(s.prio, n) == l
    ensures d <= n && s.ready[Cyclic(s.prio, d)] != []
    ensures forall e :: 0 <= e < d ==> s.ready[Cyclic(s.prio, e)] == []
  {
    d := 0;
    while s.ready[Cyclic(s.prio, d)] == []
      invariant 0 <= d <= n
      invariant forall e :: 0 <= e < d ==> s.ready[Cyclic(s.prio, e)] == []
      decreases n - d
    {
      d := d + 1;
    }
  }

  function Distance(from: nat, to: nat): (d: nat)
    requires from < MAX_PRIO && to < MAX_PRIO
    ensures d < MAX_PRIO && Cyclic(from, d) == to
  {
    if from <= to then to - from else to + MAX_PRIO - from
  }

  /** Work conservation: nobody is served exactly when all 140 queues are empty, and then the
      cursor is back at its level with all its slots; otherwise the first non-empty level from the cursor loses the
      process dequeue picks, which joins the running list. */
  lemma GetConservesWork(s: Sched)
    requires Valid(s)
    ensures var (s', got) := Get(s);
            && (got == Nobody <==> forall l :: 0 <= l < 140 ==> s.ready[l] == [])
            && (got == Nobody ==> s'.ready == s.ready && s'.running == s.running)
            && (got == Nobody ==> s'.prio == s.prio && s'.slot == 140 - s.prio)
            && (got != Nobody ==> got.level < 140 && s.ready[got.level] != []
                                  && got.p == s.ready[got.level][Best(s.ready[got.level])]
                                  && s'.ready == s.ready[got.level := Without(s.ready[got.level],
                                                                              Best(s.ready[got.level]))]
                                  && s'.running == Put(s.running, got.p)
                                  && UsesSlot(got.level, if got.level == s.prio then s.slot else 140 - got.level, s')
                                  && forall e :: 0 <= e < Distance(s.prio, got.level) ==>
                                      s.ready[Cyclic(s.prio, e)] == [])
  {
    hide Scan, Cyclic, Next, Best;
    if l :| 0 <= l < MAX_PRIO && s.ready[l] != [] {
      var d := FirstNonEmpty(s, l, Distance(s.prio, l));
      ScanServes(s, 0, d);
      assert Distance(s.prio, Cyclic(s.prio, d)) == d;
    } else {
      ScanFindsNothing(s, 0);
    }
  }
}
