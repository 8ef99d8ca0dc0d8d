/** The scheduler on its real queues (src/sched.c). */
module Schedulers {
  import opened Options
  import opened ReadyQueue
  import opened Mlq

  /** One turn of the scan. */
  lemma ScanTurn(s: Sched, checked: nat)
    requires Mlq.Valid(s)
    ensures checked >= MAX_PRIO ==> Scan(s, checked) == (s, Nobody)
    ensures checked < MAX_PRIO && s.ready[s.prio] == [] ==> Scan(s, checked) == Scan(Advance(s), checked + 1)
    ensures checked < MAX_PRIO && s.ready[s.prio] != []
      ==> Scan(s, checked) == (Serve(s), Served(s.ready[s.prio][Best(s.ready[s.prio])], s.prio))
  {
  }

  /** The static queues and the static cursor; every method is one section under queue_lock. */
  class Scheduler {
    const mlqReadyQueue: seq<Queue>
    const runningList: Queue
    var currPrio: nat
    var currSlot: nat

    ghost function Queues(): set<Queue> {
      (set i | 0 <= i < |mlqReadyQueue| :: mlqReadyQueue[i]) + {runningList}
    }

    ghost function Arrays(): set<array<Proc>> {
      (set i | 0 <= i < |mlqReadyQueue| :: mlqReadyQueue[i].proc) + {runningList.proc}
    }

    /** 140 ready queues and the running list, no two of them sharing a buffer. */
    ghost predicate Separate() {
      && |mlqReadyQueue| == MAX_PRIO
      && (forall i, j :: 0 <= i < j < MAX_PRIO ==>
            mlqReadyQueue[i] != mlqReadyQueue[j] && mlqReadyQueue[i].proc != mlqReadyQueue[j].proc)
      && (forall i :: 0 <= i < MAX_PRIO ==>
            mlqReadyQueue[i] != runningList && mlqReadyQueue[i].proc != runningList.proc)
    }

    ghost predicate Valid()
      reads this, Queues()
    {
      && Separate() && runningList.Valid() && (forall i :: 0 <= i < MAX_PRIO ==> mlqReadyQueue[i].Valid())
      && currPrio < MAX_PRIO && 1 <= currSlot <= MAX_PRIO - currPrio
    }

    ghost function Ready(): (r: seq<seq<Proc>>)
      reads Queues(), Arrays()
      ensures |r| == |mlqReadyQueue| && forall i :: 0 <= i < |r| ==> r[i] == mlqReadyQueue[i].Contents()
    {
      seq(|mlqReadyQueue|, i requires 0 <= i < |mlqReadyQueue| reads Queues(), Arrays() => mlqReadyQueue[i].Contents())
    }

    ghost function Abs(): Sched
      reads this, Queues(), Arrays()
    {
      Sched(Ready(), runningList.Contents(), currPrio, currSlot)
    }

    /** init_scheduler, with the cursor's static initial value. */
    constructor ()
      ensures Valid() && fresh(Queues()) && fresh(Arrays())
      ensures Abs() == NewSched()
    {
      var qs: seq<Queue> := [];
      var run := new Queue();
      for i := 0 to MAX_PRIO
        invariant |qs| == i && fresh(run) && fresh(run.proc) && run.Valid() && run.Contents() == []
        invariant forall j :: 0 <= j < i ==> fresh(qs[j]) && fresh(qs[j].proc)
        invariant forall j :: 0 <= j < i ==> qs[j].Valid() && qs[j].Contents() == []
        invariant forall j :: 0 <= j < i ==> qs[j] != run && qs[j].proc != run.proc
        invariant forall j, k :: 0 <= j < k < i ==> qs[j] != qs[k] && qs[j].proc != qs[k].proc
      {
        var q := new Queue();
        qs := qs + [q];
      }
      mlqReadyQueue, runningList, currPrio, currSlot := qs, run, 0, MAX_PRIO;
      new;
      assert Ready() == seq(MAX_PRIO, _ => []);
    }

    /** Only queue l changed: its new contents take the place of the old. */
    twostate lemma OneQueueChanged(l: nat)
      requires Separate() && l < MAX_PRIO
      requires forall i :: 0 <= i < MAX_PRIO && i != l ==> unchanged(mlqReadyQueue[i])
      requires forall i :: 0 <= i < MAX_PRIO && i != l ==> unchanged(mlqReadyQueue[i].proc)
      ensures Ready() == old(Ready())[l := mlqReadyQueue[l].Contents()]
    {
    }

    /** The cursor moves to the next level with that level's full slots. */
    method AdvanceCursor()
      requires Separate() && currPrio < MAX_PRIO
      modifies this`currPrio, this`currSlot
      ensures currPrio == Next(old(currPrio)) && currSlot == MAX_PRIO - Next(old(currPrio))
      ensures Ready() == old(Ready()) && runningList.Contents() == old(runningList.Contents())
    {
      currPrio := (currPrio + 1) % MAX_PRIO;
      currSlot := MAX_PRIO - currPrio;
    }

    method DequeueLevel(l: nat) returns (p: Proc)
      requires Valid() && l < MAX_PRIO && Abs().ready[l] != []
      modifies mlqReadyQueue[l], mlqReadyQueue[l].proc
      ensures Valid() && p == old(Ready()[l][Best(Ready()[l])])
      ensures Ready() == old(Ready()[l := Without(Ready()[l], Best(Ready()[l]))])
      ensures runningList.Contents() == old(runningList.Contents())
    {
      var r := mlqReadyQueue[l].Dequeue();
      p := r.value;
      OneQueueChanged(l);
    }

    method EnqueueLevel(l: nat, p: Proc)
      requires Valid() && l < MAX_PRIO
      modifies mlqReadyQueue[l], mlqReadyQueue[l].proc
      ensures Valid() && Ready() == old(Ready()[l := Put(Ready()[l], p)])
      ensures runningList.Contents() == old(runningList.Contents())
    {
      mlqReadyQueue[l].Enqueue(p);
      OneQueueChanged(l);
    }

    method EnqueueRunning(p: Proc)
      requires Valid()
      modifies runningList, runningList.proc
      ensures Valid() && Ready() == old(Ready()) && runningList.Contents() == Put(old(runningList.Contents()), p)
    {
      runningList.Enqueue(p);
      assert forall i :: 0 <= i < MAX_PRIO ==> mlqReadyQueue[i].Contents() == old(mlqReadyQueue[i].Contents());
    }

    method PurgeRunning(p: Proc)
      requires Valid()
      modifies runningList, runningList.proc
      ensures Valid() && Ready() == old(Ready()) && runningList.Contents() == Purge(old(runningList.Contents()), p)
    {
      var _ := runningList.PurgeQueue(p);
      assert forall i :: 0 <= i < MAX_PRIO ==> mlqReadyQueue[i].Contents() == old(mlqReadyQueue[i].Contents());
    }

    /** The branch of get_mlq_proc that serves the cursor's level. */
    method ServeCurrent() returns (p: Proc)
      requires Valid() && Abs().ready[currPrio] != []
      modifies this, Queues(), Arrays()
      ensures Valid() && Abs() == Serve(old(Abs()))
      ensures p == old(Abs().ready[currPrio][Best(Abs().ready[currPrio])])
    {
      hide Best;
      p := DequeueLevel(currPrio);
      currSlot := currSlot - 1;
      if currSlot == 0 {
        AdvanceCursor();
      }
    }

    /** The loop of get_mlq_proc. */
    method ScanLevels() returns (r: Option<Proc>)
      requires Valid()
      modifies this, Queues(), Arrays()
      ensures Valid() && Abs() == Scan(old(Abs()), 0).0
      ensures r == match Scan(old(Abs()), 0).1 case Nobody => None case Served(p, l) => Some(p)
    {
      hide Scan, Serve, Best;
      r := None;
      var checked := 0;
      while checked < MAX_PRIO
        invariant 0 <= checked <= MAX_PRIO && Valid() && r == None
        invariant Scan(old(Abs()), 0) == Scan(Abs(), checked)
        decreases MAX_PRIO - checked
      {
        ScanTurn(Abs(), checked);
        if mlqReadyQueue[currPrio].size != 0 && currSlot > 0 {
          var p := ServeCurrent();
          r := Some(p);
          break;
        } else {
          AdvanceCursor();
          checked := checked + 1;
        }
      }
      ScanTurn(Abs(), checked);
    }

    /** get_mlq_proc. */
    method GetMlqProc() returns (r: Option<Proc>)
      requires Valid()
      modifies this, Queues(), Arrays()
      ensures Valid() && Abs() == Get(old(Abs())).0
      ensures r == match Get(old(Abs())).1 case Nobody => None case Served(p, l) => Some(p)
    {
      hide Scan;
      r := ScanLevels();
      if r.Some? {
        EnqueueRunning(r.value);
      }
    }

    /** put_mlq_proc. */
    method PutMlqProc(p: Proc)
      requires Valid()
      modifies this, Queues(), Arrays()
      ensures Valid() && Abs() == PutBack(old(Abs()), p)
    {
      var prio := p.prio;
      if prio >= MAX_PRIO {
        prio := 0;
      }
      PurgeRunning(p);
      EnqueueLevel(prio, p);
    }

    /** add_mlq_proc. */
    method AddMlqProc(p: Proc)
      requires Valid()
      modifies this, Queues(), Arrays()
      ensures Valid() && Abs() == Add(old(Abs()), p)
    {
      var prio := p.prio;
      if prio >= MAX_PRIO {
        prio := 0;
      }
      EnqueueLevel(prio, p);
    }

    /** finish_mlq_proc. */
    method FinishMlqProc(p: Proc)
      requires Valid()
      modifies this, Queues(), Arrays()
      ensures Valid() && Abs() == Finish(old(Abs()), p)
    {
      PurgeRunning(p);
    }
  }
}
