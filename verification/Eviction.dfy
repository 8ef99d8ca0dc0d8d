/** What eviction and the swap device do over whole runs. */
module Eviction {
  import opened Options
  import opened Sequences
  import opened PteCodec
  import opened Paging
  import opened Ownership
  import opened Regions
  import opened PagingRuns

  /** The frames named by a process's eviction list. */
  ghost function FramesOf(mm: Mm, k: nat): (r: seq<nat>)
    requires k <= |mm.fifo|
    requires forall i :: 0 <= i < k ==> mm.fifo[i] < |mm.pages| && mm.pages[mm.fifo[i]].Resident?
    ensures |r| == k && forall i :: 0 <= i < k ==> r[i] == mm.pages[mm.fifo[i]].fpn
  {
    if k == 0 then [] else FramesOf(mm, k - 1) + [mm.pages[mm.fifo[k - 1]].fpn]
  }

  /** No list is longer than RAM, so the guard in find_victim_page never fires. */
  lemma GuardNeverFires(m: Machine, p: nat)
    requires Inv(m, {}) && p < |m.procs|
    ensures |m.procs[p].fifo| <= |m.ram.frames| < 10000
  {
    var mm := m.procs[p];
    assert WellFormed(At(m, p));
    var fs := FramesOf(mm, |mm.fifo|);
    forall i | 0 <= i < |fs|
      ensures Holds(m, p, mm.fifo[i], fs[i]) && fs[i] in UpTo(|m.ram.frames|)
    {
      assert Holds(m, p, mm.fifo[i], fs[i]);
    }
    DistinctFits(fs, UpTo(|m.ram.frames|));
    UpToSize(|m.ram.frames|);
  }

  /** A page can be brought in exactly when it is there, or a frame is free, or the process has a
      page to evict and the swap device a slot to take it. */
  lemma FaultSucceeds(m: Machine, p: nat, g: nat)
    requires Inv(m, {}) && p < |m.procs| && g < MAX_PGN
    ensures Fault(At(m, p), g).value.Some?
       <==> m.procs[p].pages[g].Resident? || m.ram.free != [] || (m.procs[p].fifo != [] && m.swap.free != [])
  {
    GuardNeverFires(m, p);
    ObtainReady(At(m, p));
  }

  /** The page pg_getpage would evict, and the frame it is in. */
  ghost function Tail(mm: Mm): nat
    requires mm.fifo != []
  {
    mm.fifo[|mm.fifo| - 1]
  }

  /** Everything a page fault does.  A resident page is left alone.  Otherwise, if there is a free
      frame, the page gets the first one and joins the eviction list behind all others; if not, it
      takes the frame and the place of the list's tail, which moves to the first free slot.  When
      that fails only the tail leaves the list. */
  lemma FaultEffect(m: Machine, p: nat, g: nat)
    requires Inv(m, {}) && p < |m.procs| && g < MAX_PGN
    ensures var v := At(m, p); var r := Fault(v, g); var v' := r.view; var list := v.mm.fifo;
            if v.mm.pages[g].Resident? then v' == v && r.value == Some(v.mm.pages[g].fpn)
            else if v.ram.free != [] then
              && r.value == Some(v.ram.free[0]) && v'.ram.free == v.ram.free[1..] && v'.swap == v.swap
              && v'.mm.pages == v.mm.pages[g := Resident(v.ram.free[0])] && v'.mm.fifo == list + [g]
            else if list != [] && v.swap.free != [] then
              var t := Tail(v.mm); var s := v.swap.free[0];
              && r.value == Some(v.mm.pages[t].fpn) && v'.ram.free == [] && v'.swap.free == v.swap.free[1..]
              && v'.swap.frames == v.swap.frames[s := v.ram.frames[r.value.value]]
              && v'.mm.pages == v.mm.pages[t := Swapped(s)][g := Resident(r.value.value)]
              && v'.mm.fifo == list[..|list| - 1] + [g]
            else
              && r.value == None && v'.ram == v.ram && v'.swap == v.swap && v'.mm.pages == v.mm.pages
              && v'.mm.fifo == if list == [] then [] else list[..|list| - 1]
  {
    GuardNeverFires(m, p);
    ObtainReady(At(m, p));
    if At(m, p).mm.fifo != [] { assert EntryOk(At(m, p), At(m, p).mm.pages[Tail(At(m, p).mm)]); }
  }

  /** Where a page brought in finds its bytes: those of its slot if it was swapped out, else those
      the frame happens to hold. */
  lemma FaultFills(m: Machine, p: nat, g: nat)
    requires Inv(m, {}) && p < |m.procs| && g < MAX_PGN && Fault(At(m, p), g).value.Some?
    ensures var v := At(m, p); var r := Fault(v, g);
            r.view.ram.frames == match v.mm.pages[g]
                                 case Swapped(s) => v.ram.frames[r.value.value := v.swap.frames[s]]
                                 case _ => v.ram.frames
  {
    GuardNeverFires(m, p);
    ObtainReady(At(m, p));
    assert EntryOk(At(m, p), m.procs[p].pages[g]);
    if m.procs[p].pages[g].Swapped? { assert Parks(m, p, g, m.procs[p].pages[g].slot); }
    if m.procs[p].fifo != [] { assert EntryOk(At(m, p), m.procs[p].pages[Tail(m.procs[p])]); }
  }

  /** The page of an address can be had: it is in RAM, or a frame is free, or there is a page to
      evict and a slot to take it. */
  ghost predicate CanTouch(m: Machine, p: nat, a: nat)
    requires p < |m.procs| && |m.procs[p].pages| == 0x4000
  {
    m.procs[p].pages[a / 256 % 0x4000].Resident? || m.ram.free != [] || (m.procs[p].fifo != [] && m.swap.free != [])
  }

  /** What `__read` and `__write` accept: a symbol with a region, and an offset whose 64-bit sum with
      the region's start lies below its end, on a page that can be had. */
  ghost predicate CanAccess(m: Machine, p: nat, rg: int, offset: nat)
    requires p < |m.procs| && |m.procs[p].pages| == 0x4000 && |m.procs[p].syms| == 30
  {
    && 0 <= rg < 30 && m.procs[p].syms[rg].lo != m.procs[p].syms[rg].hi
    && (m.procs[p].syms[rg].lo + offset) % 0x1_0000_0000_0000_0000 < m.procs[p].syms[rg].hi
    && CanTouch(m, p, (m.procs[p].syms[rg].lo + offset) % 0x1_0000_0000_0000_0000)
  }

  /** A read succeeds exactly then, and loads the byte at that sum. */
  lemma ReadSucceeds(m: Machine, p: nat, rg: int, offset: nat)
    requires Good(m) && p < |m.procs|
    ensures |m.procs[p].pages| == 0x4000 && |m.procs[p].syms| == 30 && WellFormed(At(m, p))
    ensures var r := Read(At(m, p), rg, offset); var e := Exec(m, OpRead(p, rg, offset)).1;
            && (r.value.Some? <==> CanAccess(m, p, rg, offset))
            && e == (if CanAccess(m, p, rg, offset) then
                       Loaded(p, (m.procs[p].syms[rg].lo + offset) % 0x1_0000_0000_0000_0000, r.value.value)
                     else Quiet)
  {
    GoodMeansWellFormed(m, p);
    if Target(m.procs[p], rg, offset).Some? {
      FaultSucceeds(m, p, Pgn(Target(m.procs[p], rg, offset).value));
    }
    hide Fault, Inv, WellFormed;
  }

  /** A write succeeds exactly then, and stores at that sum. */
  lemma WriteSucceeds(m: Machine, p: nat, rg: int, offset: nat, b: Byte)
    requires Good(m) && p < |m.procs|
    ensures |m.procs[p].pages| == 0x4000 && |m.procs[p].syms| == 30 && WellFormed(At(m, p))
    ensures var w := Write(At(m, p), rg, offset, b); var e := Exec(m, OpWrite(p, rg, offset, b)).1;
            && (w.value.Some? <==> CanAccess(m, p, rg, offset))
            && e == (if CanAccess(m, p, rg, offset) then
                       Stored(p, (m.procs[p].syms[rg].lo + offset) % 0x1_0000_0000_0000_0000, b)
                     else Quiet)
  {
    GoodMeansWellFormed(m, p);
    if Target(m.procs[p], rg, offset).Some? {
      FaultSucceeds(m, p, Pgn(Target(m.procs[p], rg, offset).value));
    }
    hide Fault, Inv, WellFormed;
  }

  /** The page a call touches, if its region check passes. */
  ghost function Touched(m: Machine, op: Op): Option<(nat, nat)> {
    if (op.OpRead? || op.OpWrite?) && op.p < |m.procs| && |m.procs[op.p].syms| == MAX_SYMS
       && Target(m.procs[op.p], op.rg, op.offset).Some? then
      Some((op.p, Pgn(Target(m.procs[op.p], op.rg, op.offset).value)))
    else None
  }

  /** 1 if the call copies a page to swap: its page is not in RAM, no frame is free, its process
      has a victim, and a slot is left. */
  ghost function SwapOut(m: Machine, op: Op): nat {
    match Touched(m, op)
    case None => 0
    case Some((p, g)) =>
      if p < |m.procs| && g < |m.procs[p].pages| && !m.procs[p].pages[g].Resident?
         && m.ram.free == [] && m.procs[p].fifo != [] && m.swap.free != [] then 1 else 0
  }

  ghost function SwapOuts(m: Machine, ops: seq<Op>): nat
    requires Good(m) && Runnable(m, ops)
    decreases |ops|
  {
    if ops == [] then 0 else
      StepKeepsGood(m, ops[0]);
      SwapOut(m, ops[0]) + SwapOuts(Exec(m, ops[0]).0, ops[1..])
  }

  lemma AllocDevices(v: View, rg: int, size: nat)
    requires WellFormed(v) && v.mm.brk + Growth(v, rg, size) <= BUS_SPAN
    ensures var v' := Alloc(v, rg, size).view; v'.swap == v.swap && |v'.ram.free| <= |v.ram.free|
    ensures v.ram.free == [] ==> Alloc(v, rg, size).view.mm.pages == v.mm.pages
    ensures v.ram.free == [] ==> Alloc(v, rg, size).view.mm.fifo == v.mm.fifo
  {
    if Growth(v, rg, size) != 0 {
      var (frames, free) := AllocPages(v.ram.free, AlignedSize(size) / GROW_UNIT);
      MapAllMaps(View(Extended(v.mm, rg, size), v.ram.(free := free), v.swap), v.mm.brk / PAGE_SIZE, frames);
    }
  }

  /** A slot leaves the free list only when it is swapped out to, in list order. */
  lemma StepTakesSlots(m: Machine, op: Op)
    requires Good(m) && Fits(m, op)
    ensures SwapOut(m, op) <= |m.swap.free| && Exec(m, op).0.swap.free == m.swap.free[SwapOut(m, op)..]
  {
    match op
    case OpAlloc(p, rg, size) => if p < |m.procs| { AllocDevices(At(m, p), rg, size); }
    case OpRead(p, rg, offset) => if p < |m.procs| { GuardNeverFires(m, p); }
    case OpWrite(p, rg, offset, data) => if p < |m.procs| { GuardNeverFires(m, p); }
    case _ =>
  }

  /** Slots are never reissued: the free list of a run's end is the tail of the one it began
      with, and exactly one slot went for every swap-out. */
  lemma {:induction false} SlotsNeverReissued(m: Machine, ops: seq<Op>)
    requires Good(m) && Runnable(m, ops)
    ensures SwapOuts(m, ops) <= |m.swap.free|
    ensures Final(m, ops).swap.free == m.swap.free[SwapOuts(m, ops)..]
    decreases |ops|
  {
    if ops == [] {
    } else {
      StepKeepsGood(m, ops[0]);
      StepTakesSlots(m, ops[0]);
      SlotsNeverReissued(Exec(m, ops[0]).0, ops[1..]);
    }
  }

  /** All list entries but the newest stand, and their pages keep their frames. */
  ghost predicate Pinned(mm: Mm, mm': Mm) {
    && |mm'.fifo| == |mm.fifo|
    && (forall i :: 0 <= i < |mm.fifo| - 1 ==> mm'.fifo[i] == mm.fifo[i])
    && (forall i :: 0 <= i < |mm.fifo| - 1 && mm.fifo[i] < |mm.pages| ==>
        mm.fifo[i] < |mm'.pages| && mm'.pages[mm.fifo[i]] == mm.pages[mm.fifo[i]])
  }

  lemma FaultPins(v: View, g: nat)
    requires WellFormed(v) && g < MAX_PGN && v.ram.free == [] && v.swap.free != [] && |v.mm.fifo| <= WALK_LIMIT
    ensures Pinned(v.mm, Fault(v, g).view.mm) && Fault(v, g).view.ram.free == []
  {
    ObtainReady(v);
  }

  lemma StepPins(m: Machine, op: Op, p: nat)
    requires Good(m) && Fits(m, op) && p < |m.procs| && m.ram.free == [] && m.swap.free != []
    ensures var m' := Exec(m, op).0; p < |m'.procs| && m'.ram.free == [] && Pinned(m.procs[p], m'.procs[p])
  {
    match op
    case OpAlloc(q, rg, size) => if q < |m.procs| { AllocDevices(At(m, q), rg, size); }
    case OpRead(q, rg, offset) =>
      if q < |m.procs| && Target(m.procs[q], rg, offset).Some? {
        GuardNeverFires(m, q);
        FaultPins(At(m, q), Pgn(Target(m.procs[q], rg, offset).value));
      }
    case OpWrite(q, rg, offset, data) =>
      if q < |m.procs| && Target(m.procs[q], rg, offset).Some? {
        GuardNeverFires(m, q);
        FaultPins(At(m, q), Pgn(Target(m.procs[q], rg, offset).value));
      }
    case _ =>
  }

  /** Last in, first out: once RAM is full, and until swap is, a process keeps every page of its
      list but the newest in the frame it had, however long the run. */
  lemma {:induction false} EvictionIsLastInFirstOut(m: Machine, ops: seq<Op>, p: nat)
    requires Good(m) && Runnable(m, ops) && p < |m.procs| && m.ram.free == []
    requires Final(m, ops).swap.free != []
    ensures var m' := Final(m, ops); p < |m'.procs| && m'.ram.free == [] && Pinned(m.procs[p], m'.procs[p])
    decreases |ops|
  {
    if ops == [] {
    } else {
      var m1 := Exec(m, ops[0]).0;
      StepKeepsGood(m, ops[0]);
      SlotsNeverReissued(m, ops);
      StepPins(m, ops[0], p);
      EvictionIsLastInFirstOut(m1, ops[1..], p);
      assert WellFormed(At(m, p));
    }
  }

  // ---- what is listed ------------------------------------------------------------------

  /** Every resident page of every process is on its eviction list. */
  ghost predicate AllListed(m: Machine) {
    forall p: nat, g: nat, f: nat :: Holds(m, p, g, f) ==> g in m.procs[p].fifo
  }

  /** A resident page that the list has lost. */
  ghost predicate Unlisted(m: Machine, p: nat, g: nat) {
    p < |m.procs| && g < |m.procs[p].pages| && m.procs[p].pages[g].Resident? && g !in m.procs[p].fifo
  }

  /** Page g of process p would need a victim, and there is one, but no slot to take it. */
  ghost predicate NoSlotFor(m: Machine, p: nat, g: nat) {
    && p < |m.procs| && g < |m.procs[p].pages| && !m.procs[p].pages[g].Resident?
    && m.ram.free == [] && m.procs[p].fifo != [] && m.swap.free == []
  }

  /** The call finds a victim and no slot for it: the victim leaves the list but stays resident. */
  ghost predicate LosesVictim(m: Machine, op: Op) {
    match Touched(m, op)
    case None => false
    case Some((p, g)) => NoSlotFor(m, p, g)
  }

  ghost predicate NeverLosesVictim(m: Machine, ops: seq<Op>)
    requires Good(m) && Runnable(m, ops)
    decreases |ops|
  {
    ops == []
    || (!LosesVictim(m, ops[0]) && (StepKeepsGood(m, ops[0]); NeverLosesVictim(Exec(m, ops[0]).0, ops[1..])))
  }

  /** The process that a read or a write leaves behind is the one its page fault leaves. */
  lemma AccessIsFault(m: Machine, op: Op)
    requires Good(m) && (op.OpRead? || op.OpWrite?) && op.p < |m.procs|
    ensures |Exec(m, op).0.procs| == |m.procs|
    ensures forall q :: 0 <= q < |m.procs| && q != op.p ==> Exec(m, op).0.procs[q] == m.procs[q]
    ensures Exec(m, op).0.procs[op.p]
         == match Touched(m, op)
            case Some((p, g)) => Fault(At(m, op.p), g).view.mm
            case None => m.procs[op.p]
  {
    hide Fault;
  }

  /** One page of one process, and the list, after a page fault. */
  lemma FaultLists(m: Machine, p: nat, g: nat, h: nat)
    requires Inv(m, {}) && p < |m.procs| && g < MAX_PGN && h < MAX_PGN
    ensures |m.procs[p].pages| == MAX_PGN == |Fault(At(m, p), g).view.mm.pages|
    ensures var mm, mm' := m.procs[p], Fault(At(m, p), g).view.mm;
            && (mm.pages[h].Resident? && h !in mm.fifo ==> mm'.pages[h].Resident? && h !in mm'.fifo)
            && (!NoSlotFor(m, p, g) && mm'.pages[h].Resident? && h !in mm'.fifo ==>
                  mm.pages[h].Resident? && h !in mm.fifo)
            && (NoSlotFor(m, p, g) && h == Tail(mm) ==> mm'.pages[h].Resident? && h !in mm'.fifo)
  {
    var mm, mm' := m.procs[p], Fault(At(m, p), g).view.mm;
    assert WellFormed(At(m, p));
    FaultEffect(m, p, g);
    hide Fault, Inv;
    var n := |mm.fifo|;
    if n > 0 { assert mm.fifo == mm.fifo[..n - 1] + [Tail(mm)]; }
    if mm.pages[h].Resident? && h !in mm.fifo { assert h != g || mm' == mm; }
    if h in mm'.fifo && mm' != mm {
      assert h in mm.fifo || h == g;
    }
    if mm'.pages[h].Resident? && h == g && mm' != mm { assert mm'.fifo[|mm'.fifo| - 1] == g; }
  }

  /** Mapping pages that were absent lists them and leaves the rest of the list alone. */
  lemma AllocLists(v: View, rg: int, size: nat, h: nat)
    requires WellFormed(v) && BelowBreak(v.mm) && v.mm.brk + Growth(v, rg, size) <= BUS_SPAN && h < MAX_PGN
    ensures var mm' := Alloc(v, rg, size).view.mm;
            && |mm'.pages| == MAX_PGN
            && (mm'.pages[h].Resident? && h !in mm'.fifo <==> v.mm.pages[h].Resident? && h !in v.mm.fifo)
  {
    if Growth(v, rg, size) != 0 {
      var n := AlignedSize(size) / GROW_UNIT;
      var g := v.mm.brk / PAGE_SIZE;
      var frames := if n <= |v.ram.free| then v.ram.free[..n] else [];
      AllocGrows(v, rg, size);
      var mm' := Alloc(v, rg, size).view.mm;
      NothingBeyondBreak(v.mm, g, |frames|);
      hide WellFormed, BelowBreak, Alloc, Growth, AlignedSize;
      MappedLists(v.mm, mm', g, frames, h);
    }
  }

  lemma MappedLists(mm: Mm, mm': Mm, g: nat, frames: seq<nat>, h: nat)
    requires MapsInOrder(mm, mm', g, frames) && h < |mm.pages|
    requires forall k :: g <= k < g + |frames| ==> mm.pages[k] == Absent
    requires forall i :: 0 <= i < |mm.fifo| ==> mm.fifo[i] < |mm.pages| && mm.pages[mm.fifo[i]].Resident?
    ensures mm'.pages[h].Resident? && h !in mm'.fifo <==> mm.pages[h].Resident? && h !in mm.fifo
  {
    var n := |mm.fifo|;
    if g <= h < g + |frames| {
      assert MapsOne(mm', g, n, frames, h - g) && mm'.fifo[n + (h - g)] == h;
    } else {
      forall i | n <= i < |mm'.fifo|
        ensures mm'.fifo[i] != h
      {
        assert MapsOne(mm', g, n, frames, i - n);
      }
      assert forall i :: 0 <= i < n ==> mm'.fifo[i] == mm'.fifo[..n][i] == mm.fifo[i];
      assert h in mm'.fifo <==> h in mm.fifo;
    }
  }

  /** A call loses a page from its list exactly when it finds a victim and no slot, and no call ever
      lists a lost page again. */
  lemma StepUnlists(m: Machine, op: Op, p: nat, h: nat)
    requires Good(m) && Fits(m, op) && p < |m.procs| && h < MAX_PGN
    ensures var m' := Exec(m, op).0;
            && (Unlisted(m, p, h) ==> Unlisted(m', p, h))
            && (Unlisted(m', p, h) && !LosesVictim(m, op) ==> Unlisted(m, p, h))
            && (LosesVictim(m, op) && op.p == p && h == Tail(m.procs[p]) ==> Unlisted(m', p, h))
  {
    GoodMeansWellFormed(m, p);
    match op
    case OpSpawn =>
    case OpAlloc(q, rg, size) =>
      if q == p {
        AllocLists(At(m, p), rg, size, h);
        hide Inv, WellFormed, Growth;
      }
    case OpFree(q, rg) =>
    case OpRead(q, rg, offset) => AccessUnlists(m, op, p, h);
    case OpWrite(q, rg, offset, data) => AccessUnlists(m, op, p, h);
  }

  lemma AccessUnlists(m: Machine, op: Op, p: nat, h: nat)
    requires Good(m) && (op.OpRead? || op.OpWrite?) && p < |m.procs| && h < MAX_PGN
    ensures var m' := Exec(m, op).0;
            && (Unlisted(m, p, h) ==> Unlisted(m', p, h))
            && (Unlisted(m', p, h) && !LosesVictim(m, op) ==> Unlisted(m, p, h))
            && (LosesVictim(m, op) && op.p == p && h == Tail(m.procs[p]) ==> Unlisted(m', p, h))
  {
    if op.p < |m.procs| {
      AccessIsFault(m, op);
      hide Exec, Fault, Inv, Disjoint;
      if op.p == p && Touched(m, op).Some? { FaultLists(m, p, Touched(m, op).value.1, h); }
    }
  }

  lemma ListedMeans(m: Machine)
    requires Good(m)
    ensures AllListed(m) <==> forall p: nat, h: nat :: !Unlisted(m, p, h)
    ensures forall p: nat, h: nat :: Unlisted(m, p, h) ==> h < MAX_PGN
  {
    forall p: nat, h: nat | Unlisted(m, p, h)
      ensures h < MAX_PGN && !AllListed(m)
    {
      GoodMeansWellFormed(m, p);
      assert Holds(m, p, h, m.procs[p].pages[h].fpn);
    }
    forall p: nat, h: nat, f: nat | Holds(m, p, h, f) && h !in m.procs[p].fifo
      ensures Unlisted(m, p, h)
    {
    }
  }

  lemma StepListed(m: Machine, op: Op)
    requires Good(m) && Fits(m, op) && Good(Exec(m, op).0) && AllListed(m) && !LosesVictim(m, op)
    ensures AllListed(Exec(m, op).0)
  {
    var m' := Exec(m, op).0;
    ListedMeans(m);
    ListedMeans(m');
    forall p: nat, h: nat
      ensures !Unlisted(m', p, h)
    {
      if Unlisted(m', p, h) {
        if p < |m.procs| { StepUnlists(m, op, p, h); } else { NewcomerIsEmpty(m, op, p, h); }
      }
    }
  }

  lemma NewcomerIsEmpty(m: Machine, op: Op, p: nat, h: nat)
    requires Good(m) && Fits(m, op) && p >= |m.procs|
    ensures !Unlisted(Exec(m, op).0, p, h)
  {
    hide Inv, Paging.Read, Paging.Write, Paging.Alloc, Paging.Free;
  }

  lemma {:induction false} UnlistedForGood(m: Machine, ops: seq<Op>, p: nat, h: nat)
    requires Good(m) && Runnable(m, ops) && Unlisted(m, p, h) && h < MAX_PGN
    ensures Unlisted(Final(m, ops), p, h)
    decreases |ops|
  {
    if ops == [] {
    } else {
      StepKeepsGood(m, ops[0]);
      StepUnlists(m, ops[0], p, h);
      hide Exec, Good, Fits;
      UnlistedForGood(Exec(m, ops[0]).0, ops[1..], p, h);
    }
  }

  /** After a run, every resident page of every process is on its eviction list, exactly if no fault
      of the run found a victim and no slot to take it.  (A listed page is always resident.) */
  lemma {:induction false} ListedIsResident(m: Machine, ops: seq<Op>)
    requires Good(m) && Runnable(m, ops) && AllListed(m)
    ensures AllListed(Final(m, ops)) <==> NeverLosesVictim(m, ops)
    decreases |ops|
  {
    if ops == [] {
    } else {
      var m1 := Exec(m, ops[0]).0;
      StepKeepsGood(m, ops[0]);
      if LosesVictim(m, ops[0]) {
        var p, h := ops[0].p, Tail(m.procs[ops[0].p]);
        VictimIsPage(m, p);
        StepUnlists(m, ops[0], p, h);
        UnlistedForGood(m1, ops[1..], p, h);
        ListedMeans(Final(m1, ops[1..]));
      } else {
        StepListed(m, ops[0]);
        hide Exec, LosesVictim;
        ListedIsResident(m1, ops[1..]);
      }
    }
  }

  lemma VictimIsPage(m: Machine, p: nat)
    requires Good(m) && p < |m.procs| && m.procs[p].fifo != []
    ensures Tail(m.procs[p]) < MAX_PGN
  {
    GoodMeansWellFormed(m, p);
  }

  // ---- tiling ------------------------------------------------------------------------------

  ghost predicate AllTiled(m: Machine) {
    forall p :: 0 <= p < |m.procs| ==> Tiled(m.procs[p])
  }

  /** A successful allocation on a symbol that holds a region. */
  ghost predicate LosesRegion(m: Machine, op: Op)
    requires Good(m) && Fits(m, op)
  {
    && op.OpAlloc? && op.p < |m.procs| && Alloc(At(m, op.p), op.rg, op.size).value.Some?
    && (assert WellFormed(At(m, op.p)); m.procs[op.p].syms[op.rg].lo < m.procs[op.p].syms[op.rg].hi)
  }

  ghost predicate NeverLoses(m: Machine, ops: seq<Op>)
    requires Good(m) && Runnable(m, ops)
    decreases |ops|
  {
    ops == [] || (!LosesRegion(m, ops[0]) && (StepKeepsGood(m, ops[0]); NeverLoses(Exec(m, ops[0]).0, ops[1..])))
  }

  /** An address below the break that no region covers. */
  ghost predicate Lost(m: Machine, p: nat, a: nat) {
    p < |m.procs| && a < m.procs[p].brk && Cover(m.procs[p], a) == 0
  }

  lemma StepTiles(m: Machine, op: Op)
    requires Good(m) && Fits(m, op) && !LosesRegion(m, op) && AllTiled(m)
    ensures AllTiled(Exec(m, op).0)
  {
    hide Paging.Read, Paging.Write, Paging.Free;
    match op
    case OpSpawn =>
      forall a: nat
        ensures Cover(FreshMm(), a) == 0
      {
        NothingCovered(FreshMm().syms, a);
        NothingCovered(FreshMm().spare, a);
      }
    case OpAlloc(p, rg, size) =>
      if p < |m.procs| {
        AllocCovers(At(m, p), rg, size, 0);
        if Alloc(At(m, p), rg, size).value.Some? { AllocTiles(At(m, p), rg, size); }
      }
    case OpFree(p, rg) => if p < |m.procs| { FreeStays(At(m, p), rg); }
    case OpRead(p, rg, offset) =>
      if p < |m.procs| {
        ReadKeeps(m, p, rg, offset);
        forall a: nat ensures Cover(Read(At(m, p), rg, offset).view.mm, a) == Cover(m.procs[p], a) {}
      }
    case OpWrite(p, rg, offset, data) =>
      if p < |m.procs| {
        WriteKeeps(m, p, rg, offset, data);
        forall a: nat ensures Cover(Write(At(m, p), rg, offset, data).view.mm, a) == Cover(m.procs[p], a) {}
      }
  }

  lemma StepLoses(m: Machine, op: Op)
    requires Good(m) && Fits(m, op) && LosesRegion(m, op) && AllTiled(m)
    ensures Lost(Exec(m, op).0, op.p, m.procs[op.p].syms[op.rg].lo)
  {
    var a := m.procs[op.p].syms[op.rg].lo;
    AllocCovers(At(m, op.p), op.rg, op.size, a);
    assert Cover(m.procs[op.p], a) == Below(a, m.procs[op.p].brk);
  }

  lemma StepKeepsLost(m: Machine, op: Op, p: nat, a: nat)
    requires Good(m) && Fits(m, op) && Lost(m, p, a)
    ensures Lost(Exec(m, op).0, p, a)
  {
    hide Inv, Paging.Read, Paging.Write, Growth, Count;
    match op
    case OpSpawn =>
    case OpAlloc(q, rg, size) =>
      if q < |m.procs| {
        GoodMeansWellFormed(m, q);
        AllocCovers(At(m, q), rg, size, a);
      }
    case OpFree(q, rg) =>
      if q < |m.procs| {
        GoodMeansWellFormed(m, q);
        FreeCovers(At(m, q), rg, a);
      }
    case OpRead(q, rg, offset) => if q < |m.procs| { ReadKeeps(m, q, rg, offset); }
    case OpWrite(q, rg, offset, data) => if q < |m.procs| { WriteKeeps(m, q, rg, offset, data); }
  }

  /** Lost for good: no call of any run brings an uncovered address back. */
  lemma {:induction false} LostForGood(m: Machine, ops: seq<Op>, p: nat, a: nat)
    requires Good(m) && Runnable(m, ops) && Lost(m, p, a)
    ensures Lost(Final(m, ops), p, a)
    decreases |ops|
  {
    if ops == [] {
    } else {
      StepKeepsGood(m, ops[0]);
      StepKeepsLost(m, ops[0], p, a);
      LostForGood(Exec(m, ops[0]).0, ops[1..], p, a);
    }
  }

  /** A run that starts with live and free regions tiling [0, break) ends so exactly when none of
      its successful allocations named a live symbol. */
  lemma {:induction false} RunStaysTiled(m: Machine, ops: seq<Op>)
    requires Good(m) && Runnable(m, ops) && AllTiled(m)
    ensures AllTiled(Final(m, ops)) <==> NeverLoses(m, ops)
    decreases |ops|
  {
    if ops == [] {
    } else {
      var m1 := Exec(m, ops[0]).0;
      StepKeepsGood(m, ops[0]);
      if LosesRegion(m, ops[0]) {
        var p, a := ops[0].p, m.procs[ops[0].p].syms[ops[0].rg].lo;
        StepLoses(m, ops[0]);
        LostForGood(m1, ops[1..], p, a);
        assert Cover(Final(m1, ops[1..]).procs[p], a) != Below(a, Final(m1, ops[1..]).procs[p].brk);
      } else {
        StepTiles(m, ops[0]);
        RunStaysTiled(m1, ops[1..]);
      }
    }
  }
}
