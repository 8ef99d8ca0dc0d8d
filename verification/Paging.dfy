/** Demand paging as one process sees it (src/libmem.c, src/mm64.c, src/mm-vm.c, src/mm-memphy.c).

  The functions here say what each library call computes; the classes in
  MemPhy.dfy and MmStruct.dfy are proved to compute exactly this on arrays.
 */
module Paging {
  import opened Options
  import opened Sequences
  import opened PteCodec

  newtype Byte = x: int | -128 <= x < 128

  const MAX_SYMS: nat := 30
  const GROW_UNIT: nat := 4096
  const WORD64: nat := 0x1_0000_0000_0000_0000
  const WALK_LIMIT: nat := 10002        // the longest list find_victim_page walks to its end

  /** A storage device: its frames' bytes and its free-frame list, head first. */
  datatype Device = Device(frames: seq<seq<Byte>>, free: seq<nat>)

  datatype Region = Region(lo: nat, hi: nat)

  /** mm_struct with its only area: `brk` is both vm_end and sbrk. */
  datatype Mm = Mm(pages: seq<Entry>, syms: seq<Region>, spare: seq<Region>, fifo: seq<nat>, brk: nat)

  /** What a call of one process can reach. */
  datatype View = View(mm: Mm, ram: Device, swap: Device)

  /** The state a call leaves and what it returns, `None` for -1. */
  datatype Reply<+T> = Reply(view: View, value: Option<T>)

  predicate DeviceOk(d: Device) {
    && Distinct(d.free)
    && (forall i :: 0 <= i < |d.free| ==> d.free[i] < |d.frames|)
    && (forall f :: 0 <= f < |d.frames| ==> |d.frames[f]| == PAGE_SIZE)
  }

  predicate EntryOk(v: View, e: Entry) {
    match e
    case Absent => true
    case Resident(f) => f < |v.ram.frames|
    case Swapped(s) => s < |v.swap.frames|
  }

  predicate WellFormed(v: View) {
    && DeviceOk(v.ram) && DeviceOk(v.swap)
    && |v.mm.pages| == MAX_PGN && |v.mm.syms| == MAX_SYMS
    && (forall g :: 0 <= g < MAX_PGN ==> EntryOk(v, v.mm.pages[g]))
    && Distinct(v.mm.fifo)
    && (forall i :: 0 <= i < |v.mm.fifo| ==> v.mm.fifo[i] < MAX_PGN && v.mm.pages[v.mm.fifo[i]].Resident?)
    && v.mm.brk <= BUS_SPAN && v.mm.brk % GROW_UNIT == 0
    && (forall i :: 0 <= i < MAX_SYMS ==> v.mm.syms[i].hi <= v.mm.brk)
    && (forall i :: 0 <= i < |v.mm.spare| ==> v.mm.spare[i].hi <= v.mm.brk)
  }

  /** Every page that has ever been mapped starts below the break. */
  ghost predicate BelowBreak(mm: Mm) {
    forall g :: 0 <= g < |mm.pages| && mm.pages[g] != Absent ==> g * PAGE_SIZE < mm.brk
  }

  // ---- page faults -------------------------------------------------------

  /** find_victim_page took the last page off the list: move it to the first free slot. */
  function Evict(v: View): Reply<nat>
    requires WellFormed(v) && v.mm.fifo != []
  {
    var victim := v.mm.fifo[|v.mm.fifo| - 1];
    var fifo := v.mm.fifo[..|v.mm.fifo| - 1];
    var f := v.mm.pages[victim].fpn;
    assert EntryOk(v, v.mm.pages[victim]);
    if v.swap.free == [] then
      Reply(v.(mm := v.mm.(fifo := fifo)), None)
    else
      var s := v.swap.free[0];
      Reply(View(v.mm.(fifo := fifo, pages := v.mm.pages[victim := Swapped(s)]),
                 v.ram,
                 Device(v.swap.frames[s := v.ram.frames[f]], v.swap.free[1..])),
            Some(f))
  }

  /** A frame for the faulting page: a free one, else the victim's. */
  function Obtain(v: View): Reply<nat>
    requires WellFormed(v)
  {
    if v.ram.free != [] then
      Reply(v.(ram := v.ram.(free := v.ram.free[1..])), Some(v.ram.free[0]))
    else if v.mm.fifo == [] || |v.mm.fifo| > WALK_LIMIT then
      Reply(v, None)
    else
      Evict(v)
  }

  /** Swap the page in, when it has been swapped out, without giving the slot back. */
  function Load(v: View, g: nat, f: nat): View
    requires g < |v.mm.pages| && EntryOk(v, v.mm.pages[g]) && f < |v.ram.frames|
  {
    match v.mm.pages[g]
    case Swapped(s) => v.(ram := v.ram.(frames := v.ram.frames[f := v.swap.frames[s]]))
    case _ => v
  }

  /** pte_set_fpn and enlist_pgn_node. */
  function Map(v: View, g: nat, f: nat): View
    requires g < |v.mm.pages|
  {
    v.(mm := v.mm.(pages := v.mm.pages[g := Resident(f)], fifo := v.mm.fifo + [g]))
  }

  lemma ObtainReady(v: View)
    requires WellFormed(v)
    ensures var r := Obtain(v);
            && |r.view.mm.pages| == MAX_PGN
            && |r.view.ram.frames| == |v.ram.frames| && |r.view.swap.frames| == |v.swap.frames|
            && (forall g :: 0 <= g < MAX_PGN ==> EntryOk(r.view, r.view.mm.pages[g]))
            && (r.value.Some? ==> r.value.value < |v.ram.frames|)
  {
    var r := Obtain(v);
    forall g | 0 <= g < MAX_PGN
      ensures EntryOk(r.view, r.view.mm.pages[g])
    {
      assert EntryOk(v, v.mm.pages[g]);
    }
    if v.ram.free == [] && v.mm.fifo != [] {
      var victim := v.mm.fifo[|v.mm.fifo| - 1];
      assert EntryOk(v, v.mm.pages[victim]);
    }
  }

  /** pg_getpage. */
  function Fault(v: View, g: nat): Reply<nat>
    requires WellFormed(v) && g < MAX_PGN
  {
    if v.mm.pages[g].Resident? then
      Reply(v, Some(v.mm.pages[g].fpn))
    else
      ObtainReady(v);
      var r := Obtain(v);
      if r.value.None? then r
      else Reply(Map(Load(r.view, g, r.value.value), g, r.value.value), r.value)
  }

  // ---- regions -----------------------------------------------------------

  /** The C conversion of a 64-bit size to `int`. */
  function Int32(size: nat): int {
    var x := size % WORD32;
    if x < 0x8000_0000 then x else x - WORD32
  }

  /** The first free region that holds `size` bytes; the list's length when none does. */
  function FirstFit(spare: seq<Region>, size: int): (i: nat)
    ensures i <= |spare|
    ensures i < |spare| ==> 0 < size && spare[i].lo + size <= spare[i].hi
    ensures forall j :: 0 <= j < i && 0 < size ==> spare[j].hi < spare[j].lo + size
  {
    if spare == [] || size <= 0 then |spare|
    else if spare[0].lo + size <= spare[0].hi then 0
    else 1 + FirstFit(spare[1..], size)
  }

  /** What is left of the list once `size` bytes are cut from its i-th region. */
  function Carve(spare: seq<Region>, i: nat, size: nat): seq<Region>
    requires i < |spare|
  {
    if spare[i].lo + size < spare[i].hi then spare[i := Region(spare[i].lo + size, spare[i].hi)]
    else if i + 1 < |spare| then spare[..i] + spare[i + 1..]
    else spare[i := Region(spare[i].hi, spare[i].hi)]
  }

  /** PAGING64_PAGE_ALIGNSZ in 64-bit arithmetic. */
  function AlignedSize(size: nat): nat {
    (size + GROW_UNIT - 1) % WORD64 / GROW_UNIT * GROW_UNIT
  }

  /** By how much __alloc moves the break. */
  function Growth(v: View, rg: int, size: nat): nat {
    if size == 0 || !(0 <= rg < MAX_SYMS) || FirstFit(v.mm.spare, Int32(size)) < |v.mm.spare|
       || AlignedSize(size) < size then 0
    else AlignedSize(size)
  }

  /** alloc_pages_range: the frames taken, and the free list that remains. */
  function AllocPages(free: seq<nat>, n: nat): (r: (seq<nat>, seq<nat>))
    ensures multiset(r.0) + multiset(r.1) == multiset(free)
    ensures n <= |free| ==> r.0 == free[..n]
    ensures |free| < n ==> r.0 == []
  {
    if n <= |free| then
      assert free == free[..n] + free[n..];
      (free[..n], free[n..])
    else
      ReverseKeepsElements(free);
      ([], Reverse(free))
  }

  /** vmap_page_range. */
  function MapAll(v: View, g: nat, frames: seq<nat>): View
    requires g + |frames| <= |v.mm.pages|
    decreases |frames|
  {
    if frames == [] then v else MapAll(Map(v, g, frames[0]), g + 1, frames[1..])
  }

  /** The area after inc_vma_limit, before any page of the new part is mapped. */
  function Extended(mm: Mm, rg: nat, size: nat): Mm
    requires rg < |mm.syms| && size <= AlignedSize(size)
  {
    var hi := mm.brk + AlignedSize(size);
    var left := if mm.brk + size < hi then [Region(mm.brk + size, hi)] else [];
    mm.(brk := hi, spare := left + mm.spare, syms := mm.syms[rg := Region(mm.brk, mm.brk + size)])
  }

  /** inc_vma_limit: only one page of 256 bytes is mapped for every 4096 bytes gained. */
  function Grow(v: View, rg: nat, size: nat): View
    requires WellFormed(v) && rg < MAX_SYMS && size <= AlignedSize(size)
    requires v.mm.brk + AlignedSize(size) <= BUS_SPAN
  {
    var (frames, free) := AllocPages(v.ram.free, AlignedSize(size) / GROW_UNIT);
    MapAll(View(Extended(v.mm, rg, size), v.ram.(free := free), v.swap), v.mm.brk / PAGE_SIZE, frames)
  }

  /** __alloc. */
  function Alloc(v: View, rg: int, size: nat): Reply<nat>
    requires WellFormed(v) && v.mm.brk + Growth(v, rg, size) <= BUS_SPAN
  {
    if size == 0 || !(0 <= rg < MAX_SYMS) then Reply(v, None)
    else
      var i := FirstFit(v.mm.spare, Int32(size));
      if i < |v.mm.spare| then
        var lo := v.mm.spare[i].lo;
        Reply(v.(mm := v.mm.(spare := Carve(v.mm.spare, i, Int32(size)),
                             syms := v.mm.syms[rg := Region(lo, lo + Int32(size))])),
              Some(lo))
      else if AlignedSize(size) < size then Reply(v, None)
      else Reply(Grow(v, rg, size), Some(v.mm.brk))
  }

  /** __free; enlist_vm_freerg_list refuses an empty region. */
  function Free(v: View, rg: int): Reply<()>
    requires WellFormed(v)
  {
    if !(0 <= rg < MAX_SYMS) || v.mm.syms[rg] == Region(0, 0) then Reply(v, None)
    else
      var r := v.mm.syms[rg];
      Reply(v.(mm := v.mm.(syms := v.mm.syms[rg := Region(0, 0)],
                           spare := if r.lo < r.hi then [r] + v.mm.spare else v.mm.spare)),
            Some(()))
  }

  // ---- byte access -------------------------------------------------------

  /** The address __read and __write accept: the sum is taken in 64 bits. */
  function Target(mm: Mm, rg: int, offset: nat): Option<nat>
    requires |mm.syms| == MAX_SYMS
  {
    if !(0 <= rg < MAX_SYMS) || mm.syms[rg].lo == mm.syms[rg].hi
       || (mm.syms[rg].lo + offset) % WORD64 >= mm.syms[rg].hi then None
    else Some((mm.syms[rg].lo + offset) % WORD64)
  }

  lemma FaultReady(v: View, g: nat)
    requires WellFormed(v) && g < MAX_PGN
    ensures var r := Fault(v, g);
            && |r.view.ram.frames| == |v.ram.frames|
            && (forall f :: 0 <= f < |v.ram.frames| ==> |r.view.ram.frames[f]| == PAGE_SIZE)
            && (r.value.Some? ==> r.value.value < |v.ram.frames|)
  {
    assert EntryOk(v, v.mm.pages[g]);
    ObtainReady(v);
  }

  /** pg_getval. */
  function PgGetVal(v: View, a: nat): Reply<Byte>
    requires WellFormed(v)
  {
    FaultReady(v, Pgn(a));
    var r := Fault(v, Pgn(a));
    Reply(r.view, if r.value.None? then None else Some(r.view.ram.frames[r.value.value][Offset(a)]))
  }

  /** pg_setval. */
  function PgSetVal(v: View, a: nat, b: Byte): Reply<()>
    requires WellFormed(v)
  {
    FaultReady(v, Pgn(a));
    var r := Fault(v, Pgn(a));
    if r.value.None? then Reply(r.view, None) else Reply(Poke(r.view, r.value.value, Offset(a), b), Some(()))
  }

  /** __read. */
  function Read(v: View, rg: int, offset: nat): Reply<Byte>
    requires WellFormed(v)
  {
    match Target(v.mm, rg, offset)
    case None => Reply(v, None)
    case Some(a) => PgGetVal(v, a)
  }

  /** __write. */
  function Write(v: View, rg: int, offset: nat, b: Byte): Reply<()>
    requires WellFormed(v)
  {
    match Target(v.mm, rg, offset)
    case None => Reply(v, None)
    case Some(a) => PgSetVal(v, a, b)
  }

  function Poke(v: View, f: nat, o: nat, b: Byte): View
    requires f < |v.ram.frames| && o < |v.ram.frames[f]|
  {
    v.(ram := v.ram.(frames := v.ram.frames[f := v.ram.frames[f][o := b]]))
  }

  // ---- what keeps a view well formed --------------------------------------

  lemma SameEntries(v: View, v': View)
    requires WellFormed(v) && v'.mm == v.mm
    requires DeviceOk(v'.ram) && DeviceOk(v'.swap)
    requires |v'.ram.frames| == |v.ram.frames| && |v'.swap.frames| == |v.swap.frames|
    ensures WellFormed(v')
  {
    forall g | 0 <= g < MAX_PGN
      ensures EntryOk(v', v'.mm.pages[g])
    {
      assert EntryOk(v, v.mm.pages[g]);
    }
  }

  /** A process whose page g is re-entered, its list changed, on devices of the same size. */
  lemma Reentered(v: View, v': View, g: nat, e: Entry)
    requires WellFormed(v) && g < MAX_PGN && EntryOk(v', e)
    requires v'.mm.pages == v.mm.pages[g := e] && v'.mm.syms == v.mm.syms && v'.mm.spare == v.mm.spare
    requires v'.mm.brk == v.mm.brk
    requires DeviceOk(v'.ram) && DeviceOk(v'.swap)
    requires |v'.ram.frames| == |v.ram.frames| && |v'.swap.frames| == |v.swap.frames|
    requires Distinct(v'.mm.fifo)
    requires forall i :: 0 <= i < |v'.mm.fifo| ==> v'.mm.fifo[i] < MAX_PGN && v'.mm.pages[v'.mm.fifo[i]].Resident?
    ensures WellFormed(v')
  {
    forall h | 0 <= h < MAX_PGN
      ensures EntryOk(v', v'.mm.pages[h])
    {
      assert EntryOk(v, v.mm.pages[h]);
    }
  }

  lemma ObtainWellFormed(v: View)
    requires WellFormed(v)
    ensures WellFormed(Obtain(v).view)
  {
    var v' := Obtain(v).view;
    if v.ram.free != [] {
      Shorter(v.ram.free, 1);
      SameEntries(v, v');
    } else if v.mm.fifo != [] && |v.mm.fifo| <= WALK_LIMIT {
      var g := v.mm.fifo[|v.mm.fifo| - 1];
      assert EntryOk(v, v.mm.pages[g]);
      if v.swap.free == [] {
        Reentered(v, v', g, v.mm.pages[g]);
      } else {
        Shorter(v.swap.free, 1);
        Reentered(v, v', g, Swapped(v.swap.free[0]));
      }
    }
  }

  /** A fault maps the page it is about, and otherwise no page that was not mapped before. */
  lemma FaultBelowBreak(v: View, g: nat)
    requires WellFormed(v) && g < MAX_PGN && BelowBreak(v.mm) && g * PAGE_SIZE < v.mm.brk
    ensures BelowBreak(Fault(v, g).view.mm)
  {
    ObtainReady(v);
  }

  lemma FaultWellFormed(v: View, g: nat)
    requires WellFormed(v) && g < MAX_PGN
    ensures WellFormed(Fault(v, g).view)
    ensures BelowBreak(v.mm) && g * PAGE_SIZE < v.mm.brk ==> BelowBreak(Fault(v, g).view.mm)
  {
    if BelowBreak(v.mm) && g * PAGE_SIZE < v.mm.brk { FaultBelowBreak(v, g); }
    hide BelowBreak;
    ObtainReady(v);
    ObtainWellFormed(v);
    var r := Obtain(v);
    if !v.mm.pages[g].Resident? && r.value.Some? {
      var f := r.value.value;
      var v' := Map(Load(r.view, g, f), g, f);
      assert !r.view.mm.pages[g].Resident?;
      assert EntryOk(r.view, r.view.mm.pages[g]);
      hide Obtain;
      assert forall i :: 0 <= i < |r.view.mm.fifo| ==> v'.mm.fifo[i] == r.view.mm.fifo[i] != g;
      Reentered(r.view, v', g, Resident(f));
    }
  }

  lemma ReadWellFormed(v: View, rg: int, offset: nat)
    requires WellFormed(v)
    ensures WellFormed(Read(v, rg, offset).view)
  {
    var t := Target(v.mm, rg, offset);
    if t.Some? { FaultWellFormed(v, Pgn(t.value)); }
  }

  lemma WriteWellFormed(v: View, rg: int, offset: nat, b: Byte)
    requires WellFormed(v)
    ensures WellFormed(Write(v, rg, offset, b).view)
  {
    var t := Target(v.mm, rg, offset);
    if t.Some? {
      FaultReady(v, Pgn(t.value));
      FaultWellFormed(v, Pgn(t.value));
      SameEntries(Fault(v, Pgn(t.value)).view, Write(v, rg, offset, b).view);
    }
  }

  lemma {:induction false} MapAllWellFormed(v: View, g: nat, frames: seq<nat>)
    requires WellFormed(v) && BelowBreak(v.mm) && g + |frames| <= MAX_PGN
    requires forall h :: g <= h < g + |frames| ==> v.mm.pages[h] == Absent && h * PAGE_SIZE < v.mm.brk
    requires forall i :: 0 <= i < |frames| ==> frames[i] < |v.ram.frames|
    ensures WellFormed(MapAll(v, g, frames)) && BelowBreak(MapAll(v, g, frames).mm)
    decreases |frames|
  {
    if frames == [] {
    } else {
      var v' := Map(v, g, frames[0]);
      assert g !in v.mm.fifo;
      assert forall i :: 0 <= i < |v.mm.fifo| ==> v'.mm.fifo[i] == v.mm.fifo[i] != g;
      Reentered(v, v', g, Resident(frames[0]));
      MapAllWellFormed(v', g + 1, frames[1..]);
    }
  }

  /** The frames taken are frames of the device, and the list that remains is sound. */
  lemma AllocPagesSound(d: Device, n: nat)
    requires DeviceOk(d)
    ensures var (frames, free) := AllocPages(d.free, n);
            && DeviceOk(d.(free := free)) && |frames| <= n
            && forall i :: 0 <= i < |frames| ==> frames[i] < |d.frames|
  {
    if n <= |d.free| { Shorter(d.free, n); }
  }

  lemma ExtendedWellFormed(v: View, rg: nat, size: nat)
    requires WellFormed(v) && BelowBreak(v.mm) && rg < MAX_SYMS && size <= AlignedSize(size)
    requires v.mm.brk + AlignedSize(size) <= BUS_SPAN
    ensures var v' := v.(mm := Extended(v.mm, rg, size)); WellFormed(v') && BelowBreak(v'.mm)
  {
    var v' := v.(mm := Extended(v.mm, rg, size));
    forall g | 0 <= g < MAX_PGN
      ensures EntryOk(v', v'.mm.pages[g])
    {
      assert EntryOk(v, v.mm.pages[g]);
    }
  }

  lemma FromBreakOn(brk: nat, g: nat, h: nat)
    requires g == brk / 256 && brk % 4096 == 0 && g <= h
    ensures brk <= h * 256
  {
    assert brk == 256 * (16 * (brk / 4096));
  }

  lemma NothingBeyondBreak(mm: Mm, g: nat, n: nat)
    requires BelowBreak(mm) && g == mm.brk / PAGE_SIZE && mm.brk % GROW_UNIT == 0 && g + n <= |mm.pages|
    ensures forall h :: g <= h < g + n ==> mm.pages[h] == Absent
  {
    forall h | g <= h < g + n
      ensures mm.pages[h] == Absent
    {
      FromBreakOn(mm.brk, g, h);
    }
  }

  lemma GrowWellFormed(v: View, rg: nat, size: nat)
    requires WellFormed(v) && BelowBreak(v.mm) && rg < MAX_SYMS && size <= AlignedSize(size)
    requires v.mm.brk + AlignedSize(size) <= BUS_SPAN
    ensures WellFormed(Grow(v, rg, size)) && BelowBreak(Grow(v, rg, size).mm)
  {
    var n := AlignedSize(size) / GROW_UNIT;
    var (frames, free) := AllocPages(v.ram.free, n);
    AllocPagesSound(v.ram, n);
    var v1 := v.(ram := v.ram.(free := free));
    SameEntries(v, v1);
    ExtendedWellFormed(v1, rg, size);
    var g := v.mm.brk / PAGE_SIZE;
    NothingBeyondBreak(v.mm, g, |frames|);
    hide WellFormed, BelowBreak, AllocPages, MapAll;
    MapAllWellFormed(v1.(mm := Extended(v.mm, rg, size)), g, frames);
  }

  lemma AllocWellFormed(v: View, rg: int, size: nat)
    requires WellFormed(v) && BelowBreak(v.mm) && v.mm.brk + Growth(v, rg, size) <= BUS_SPAN
    ensures WellFormed(Alloc(v, rg, size).view) && BelowBreak(Alloc(v, rg, size).view.mm)
  {
    if size != 0 && 0 <= rg < MAX_SYMS {
      var i := FirstFit(v.mm.spare, Int32(size));
      if i < |v.mm.spare| {
        var v' := Alloc(v, rg, size).view;
        forall g | 0 <= g < MAX_PGN
          ensures EntryOk(v', v'.mm.pages[g])
        {
          assert EntryOk(v, v.mm.pages[g]);
        }
      } else if size <= AlignedSize(size) {
        GrowWellFormed(v, rg, size);
      }
    }
  }

  lemma FreeWellFormed(v: View, rg: int)
    requires WellFormed(v)
    ensures WellFormed(Free(v, rg).view)
  {
    var v' := Free(v, rg).view;
    forall g | 0 <= g < MAX_PGN
      ensures EntryOk(v', v'.mm.pages[g])
    {
      assert EntryOk(v, v.mm.pages[g]);
    }
  }

  /** Mapping pages and changing the area's regions can be done in either order. */
  lemma {:induction false} MapAllCommutes(v: View, x: Mm, g: nat, frames: seq<nat>)
    requires x.pages == v.mm.pages && x.fifo == v.mm.fifo && g + |frames| <= |v.mm.pages|
    ensures var w := MapAll(v, g, frames);
            MapAll(v.(mm := x), g, frames) == w.(mm := x.(pages := w.mm.pages, fifo := w.mm.fifo))
    decreases |frames|
  {
    if frames == [] {
    } else {
      var v1 := Map(v, g, frames[0]);
      MapAllCommutes(v1, x.(pages := v1.mm.pages, fifo := v1.mm.fifo), g + 1, frames[1..]);
    }
  }

  /** inc_vma_limit maps the pages first and moves the break afterwards. */
  lemma GrowMapsFirst(v: View, rg: nat, size: nat)
    requires WellFormed(v) && rg < MAX_SYMS && size <= AlignedSize(size)
    requires v.mm.brk + AlignedSize(size) <= BUS_SPAN
    ensures var (frames, free) := AllocPages(v.ram.free, AlignedSize(size) / GROW_UNIT);
            var w := MapAll(v.(ram := v.ram.(free := free)), v.mm.brk / PAGE_SIZE, frames);
            Grow(v, rg, size) == w.(mm := Extended(v.mm, rg, size).(pages := w.mm.pages, fifo := w.mm.fifo))
  {
    var (frames, free) := AllocPages(v.ram.free, AlignedSize(size) / GROW_UNIT);
    MapAllCommutes(v.(ram := v.ram.(free := free)), Extended(v.mm, rg, size), v.mm.brk / PAGE_SIZE, frames);
  }
}
