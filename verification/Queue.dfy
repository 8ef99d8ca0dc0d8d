/** The bounded process queue (src/queue.c). */
module ReadyQueue {
  import opened Options

  const MAX_QUEUE_SIZE: nat := 50

  /** What the scheduler reads of a pcb: `priority` is the fixed default one that dequeue compares,
      `prio` the MLQ level, `size` the length of the program. */
  datatype Proc = Proc(pid: nat, priority: nat, prio: nat, size: nat)

  function Without<T>(q: seq<T>, i: nat): seq<T>
    requires i < |q|
  {
    q[..i] + q[i + 1..]
  }

  function Put(q: seq<Proc>, p: Proc): seq<Proc> {
    if |q| >= MAX_QUEUE_SIZE then q else q + [p]
  }

  /** The process dequeue takes: the smallest priority number, the earliest of those. */
  function Best(q: seq<Proc>): (b: nat)
    requires q != []
    ensures b < |q|
    ensures forall j :: 0 <= j < |q| ==> q[b].priority <= q[j].priority
    ensures forall j :: 0 <= j < b ==> q[b].priority < q[j].priority
  {
    if |q| == 1 then 0
    else
      var n := |q| - 1;
      var b := Best(q[..n]);
      assert forall j :: 0 <= j < n ==> q[..n][j] == q[j];
      if q[n].priority < q[b].priority then n else b
  }

  /** The first entry equal to p, or the length. */
  function IndexOf(q: seq<Proc>, p: Proc): (i: nat)
    ensures i <= |q| && (i < |q| ==> q[i] == p)
    ensures forall j :: 0 <= j < i ==> q[j] != p
  {
    if q == [] then 0
    else if q[0] == p then 0
    else
      assert forall j :: 0 < j < |q| ==> q[1..][j - 1] == q[j];
      1 + IndexOf(q[1..], p)
  }

  function Purge(q: seq<Proc>, p: Proc): seq<Proc> {
    if IndexOf(q, p) < |q| then Without(q, IndexOf(q, p)) else q
  }

  /** dequeue serves in arrival order exactly when nobody behind has a smaller number. */
  lemma DequeueIsFifo(q: seq<Proc>)
    requires q != []
    ensures Best(q) == 0 <==> forall j :: 0 <= j < |q| ==> q[0].priority <= q[j].priority
  {
  }

  class Queue {
    const proc: array<Proc>
    var size: nat

    ghost predicate Valid()
      reads this
    {
      proc.Length == MAX_QUEUE_SIZE && size <= MAX_QUEUE_SIZE
    }

    ghost function Contents(): seq<Proc>
      reads this, proc
    {
      if size <= proc.Length then proc[..size] else []
    }

    constructor ()
      ensures Valid() && fresh(proc) && Contents() == []
    {
      proc := new Proc[MAX_QUEUE_SIZE];
      size := 0;
    }

    method Enqueue(p: Proc)
      requires Valid()
      modifies this`size, proc
      ensures Valid() && Contents() == Put(old(Contents()), p)
    {
      if size >= MAX_QUEUE_SIZE {
        return;
      }
      proc[size] := p;
      size := size + 1;
    }

    /** The shift that closes the gap at i. */
    method CloseGap(i: nat)
      requires Valid() && i < size
      modifies this`size, proc
      ensures Valid() && Contents() == Without(old(Contents()), i)
    {
      var j := i;
      while j < size - 1
        invariant i <= j <= size - 1 && size == old(size)
        invariant forall k :: 0 <= k < i ==> proc[k] == old(proc[k])
        invariant forall k :: i <= k < j ==> proc[k] == old(proc[k + 1])
        invariant forall k :: j <= k < size ==> proc[k] == old(proc[k])
      {
        proc[j] := proc[j + 1];
        j := j + 1;
      }
      size := size - 1;
    }

    method Dequeue() returns (r: Option<Proc>)
      requires Valid()
      modifies this`size, proc
      ensures Valid()
      ensures old(Contents()) == [] ==> r == None && Contents() == []
      ensures old(Contents()) != [] ==>
                var b := Best(old(Contents()));
                r == Some(old(Contents())[b]) && Contents() == Without(old(Contents()), b)
    {
      if size == 0 {
        return None;
      }
      var best := 0;
      for i := 1 to size
        invariant best < i && best == Best(proc[..i])
      {
        assert proc[..i + 1][..i] == proc[..i];
        if proc[i].priority < proc[best].priority {
          best := i;
        }
      }
      r := Some(proc[best]);
      CloseGap(best);
    }

    method DequeueFifo() returns (r: Option<Proc>)
      requires Valid()
      modifies this`size, proc
      ensures Valid()
      ensures old(Contents()) == [] ==> r == None && Contents() == []
      ensures old(Contents()) != [] ==> r == Some(old(Contents())[0]) && Contents() == old(Contents())[1..]
    {
      if size == 0 {
        return None;
      }
      r := Some(proc[0]);
      CloseGap(0);
    }

    method PurgeQueue(p: Proc) returns (r: Option<Proc>)
      requires Valid()
      modifies this`size, proc
      ensures Valid() && Contents() == Purge(old(Contents()), p)
      ensures r == if p in old(Contents()) then Some(p) else None
    {
      for i := 0 to size
        invariant forall j :: 0 <= j < i ==> proc[j] != p
        invariant size == old(size) && proc[..] == old(proc[..])
      {
        if proc[i] == p {
          CloseGap(i);
          return Some(p);
        }
      }
      r := None;
    }
  }
}
