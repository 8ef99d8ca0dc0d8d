/** The symbol table and the free-region list never hand out the same byte twice. */
module Regions {
  import opened Options
  import opened Sequences
  import opened PteCodec
  import opened Paging

  predicate Contains(r: Region, a: nat) {
    r.lo <= a < r.hi
  }

  function Hit(r: Region, a: nat): nat {
    if Contains(r, a) then 1 else 0
  }

  /** How many regions of a list contain an address. */
  function Count(s: seq<Region>, a: nat): nat {
    if s == [] then 0 else Hit(s[0], a) + Count(s[1..], a)
  }

  function Cover(mm: Mm, a: nat): nat {
    Count(mm.syms, a) + Count(mm.spare, a)
  }

  function Below(a: nat, brk: nat): nat {
    if a < brk then 1 else 0
  }

  /** No address lies in two regions, and none beyond the break lies in one. */
  ghost predicate Disjoint(mm: Mm) {
    forall a: nat :: Cover(mm, a) <= Below(a, mm.brk)
  }

  /** Moreover no address below the break is lost. */
  ghost predicate Tiled(mm: Mm) {
    forall a: nat :: Cover(mm, a) == Below(a, mm.brk)
  }

  lemma {:induction false} CountConcat(s: seq<Region>, t: seq<Region>, a: nat)
    ensures Count(s + t, a) == Count(s, a) + Count(t, a)
  {
    if s == [] {
      assert s + t == t;
    } else {
      assert (s + t)[1..] == s[1..] + t;
      CountConcat(s[1..], t, a);
    }
  }

  lemma CountAround(s: seq<Region>, i: nat, a: nat)
    requires i < |s|
    ensures Count(s, a) == Count(s[..i], a) + Hit(s[i], a) + Count(s[i + 1..], a)
  {
    assert s == s[..i] + s[i..] && s[i..][1..] == s[i + 1..];
    CountConcat(s[..i], s[i..], a);
  }

  lemma CountUpdate(s: seq<Region>, i: nat, r: Region, a: nat)
    requires i < |s|
    ensures Count(s[i := r], a) + Hit(s[i], a) == Count(s, a) + Hit(r, a)
  {
    CountAround(s, i, a);
    CountAround(s[i := r], i, a);
    assert s[i := r][..i] == s[..i] && s[i := r][i + 1..] == s[i + 1..];
  }

  /** Two entries of the table and the list that share an address are one entry. */
  lemma DisjointMeans(mm: Mm, i: nat, j: nat, a: nat)
    requires Disjoint(mm) && i < j < |mm.syms + mm.spare|
    ensures !(Contains((mm.syms + mm.spare)[i], a) && Contains((mm.syms + mm.spare)[j], a))
    ensures Contains((mm.syms + mm.spare)[i], a) || Contains((mm.syms + mm.spare)[j], a) ==> a < mm.brk
  {
    var s := mm.syms + mm.spare;
    CountConcat(mm.syms, mm.spare, a);
    CountAround(s, j, a);
    CountAround(s[..j], i, a);
    assert Cover(mm, a) <= Below(a, mm.brk);
  }

  /** Splitting, clone-next removal and the dummy node all take exactly the bytes handed out. */
  lemma CarveCounts(spare: seq<Region>, i: nat, size: nat, a: nat)
    requires i < |spare| && 0 < size && spare[i].lo + size <= spare[i].hi
    ensures Count(spare, a) == Count(Carve(spare, i, size), a) + Hit(Region(spare[i].lo, spare[i].lo + size), a)
  {
    if spare[i].lo + size < spare[i].hi {
      CountUpdate(spare, i, Region(spare[i].lo + size, spare[i].hi), a);
    } else if i + 1 < |spare| {
      CountAround(spare, i, a);
      CountConcat(spare[..i], spare[i + 1..], a);
    } else {
      CountUpdate(spare, i, Region(spare[i].hi, spare[i].hi), a);
    }
  }

  lemma {:induction false} MapAllArea(v: View, g: nat, frames: seq<nat>)
    requires g + |frames| <= |v.mm.pages|
    ensures var v' := MapAll(v, g, frames);
            && v'.mm.syms == v.mm.syms && v'.mm.spare == v.mm.spare && v'.mm.brk == v.mm.brk
    decreases |frames|
  {
    if frames == [] {
    } else {
      MapAllArea(Map(v, g, frames[0]), g + 1, frames[1..]);
    }
  }

  /** An allocation covers its new bytes once and forgets those its symbol had before. */
  lemma AllocCovers(v: View, rg: int, size: nat, a: nat)
    requires WellFormed(v) && v.mm.brk + Growth(v, rg, size) <= BUS_SPAN
    ensures var r := Alloc(v, rg, size);
            && (r.value.None? ==> r.view == v)
            && (r.value.Some? ==> 0 <= rg < MAX_SYMS)
            && (r.value.Some? ==> Cover(r.view.mm, a) + Hit(v.mm.syms[rg], a) + Below(a, v.mm.brk)
                                  == Cover(v.mm, a) + Below(a, r.view.mm.brk))
  {
    if size != 0 && 0 <= rg < MAX_SYMS {
      var i := FirstFit(v.mm.spare, Int32(size));
      if i < |v.mm.spare| {
        var lo := v.mm.spare[i].lo;
        CountUpdate(v.mm.syms, rg, Region(lo, lo + Int32(size)), a);
        CarveCounts(v.mm.spare, i, Int32(size), a);
      } else if size <= AlignedSize(size) {
        GrowCovers(v, rg, size, a);
      }
    }
  }

  lemma GrowCovers(v: View, rg: nat, size: nat, a: nat)
    requires WellFormed(v) && rg < MAX_SYMS && 0 < size <= AlignedSize(size)
    requires v.mm.brk + AlignedSize(size) <= BUS_SPAN
    ensures var mm := Grow(v, rg, size).mm;
            && mm.brk == v.mm.brk + AlignedSize(size)
            && Cover(mm, a) + Hit(v.mm.syms[rg], a) + Below(a, v.mm.brk) == Cover(v.mm, a) + Below(a, mm.brk)
  {
    var (frames, free) := AllocPages(v.ram.free, AlignedSize(size) / GROW_UNIT);
    var x := Extended(v.mm, rg, size);
    MapAllArea(View(x, v.ram.(free := free), v.swap), v.mm.brk / PAGE_SIZE, frames);
    CountUpdate(v.mm.syms, rg, Region(v.mm.brk, v.mm.brk + size), a);
    CountConcat(x.spare[..|x.spare| - |v.mm.spare|], v.mm.spare, a);
  }

  lemma FreeCovers(v: View, rg: int, a: nat)
    requires WellFormed(v)
    ensures Cover(Free(v, rg).view.mm, a) == Cover(v.mm, a)
  {
    if 0 <= rg < MAX_SYMS {
      CountUpdate(v.mm.syms, rg, Region(0, 0), a);
      CountConcat([v.mm.syms[rg]], v.mm.spare, a);
    }
  }

  lemma AllocStaysDisjoint(v: View, rg: int, size: nat)
    requires WellFormed(v) && v.mm.brk + Growth(v, rg, size) <= BUS_SPAN && Disjoint(v.mm)
    ensures Disjoint(Alloc(v, rg, size).view.mm)
  {
    forall a: nat
      ensures Cover(Alloc(v, rg, size).view.mm, a) <= Below(a, Alloc(v, rg, size).view.mm.brk)
    {
      AllocCovers(v, rg, size, a);
      assert Cover(v.mm, a) <= Below(a, v.mm.brk);
    }
  }

  /** A successful allocation keeps the tiling exactly when its symbol held no region. */
  lemma AllocTiles(v: View, rg: int, size: nat)
    requires WellFormed(v) && v.mm.brk + Growth(v, rg, size) <= BUS_SPAN && Tiled(v.mm)
    requires Alloc(v, rg, size).value.Some?
    ensures Tiled(Alloc(v, rg, size).view.mm) <==> v.mm.syms[rg].hi <= v.mm.syms[rg].lo
  {
    var mm := Alloc(v, rg, size).view.mm;
    forall a: nat
      ensures Cover(mm, a) + Hit(v.mm.syms[rg], a) == Below(a, mm.brk)
    {
      AllocCovers(v, rg, size, a);
    }
    assert Cover(mm, v.mm.syms[rg].lo) + Hit(v.mm.syms[rg], v.mm.syms[rg].lo) == Below(v.mm.syms[rg].lo, mm.brk);
  }

  lemma FreeStays(v: View, rg: int)
    requires WellFormed(v)
    ensures Disjoint(v.mm) ==> Disjoint(Free(v, rg).view.mm)
    ensures Tiled(v.mm) ==> Tiled(Free(v, rg).view.mm)
  {
    forall a: nat
      ensures Cover(Free(v, rg).view.mm, a) == Cover(v.mm, a)
    {
      FreeCovers(v, rg, a);
    }
  }

  /** The 64-bit sum in __read and __write: an accepted offset stays in its region exactly
      when the sum does not wrap around. */
  lemma TargetInside(mm: Mm, rg: int, offset: nat)
    requires |mm.syms| == MAX_SYMS && offset < 0x1_0000_0000_0000_0000 && Target(mm, rg, offset).Some?
    requires mm.syms[rg].lo < mm.syms[rg].hi <= BUS_SPAN
    ensures Contains(mm.syms[rg], Target(mm, rg, offset).value) <==> offset < 0x1_0000_0000_0000_0000 - mm.syms[rg].lo
    ensures offset < 0x1_0000_0000_0000_0000 - mm.syms[rg].lo ==>
              Target(mm, rg, offset).value == mm.syms[rg].lo + offset
  {
    var sum := mm.syms[rg].lo + offset;
    if sum < WORD64 {
      ModIsSelf(sum, WORD64);
    } else {
      SameQuotient(sum / WORD64, sum % WORD64, 1, sum - WORD64, WORD64);
    }
  }

  /** Rounding up to 4096 in 64 bits: right exactly when the sum does not wrap around. */
  lemma AlignedSizeRounds(size: nat)
    requires size < WORD64
    ensures AlignedSize(size) % 4096 == 0
    ensures size <= AlignedSize(size) <==> size + 4095 < 0x1_0000_0000_0000_0000
    ensures size <= AlignedSize(size) ==> AlignedSize(size) < size + 4096
  {
    var sum := size + GROW_UNIT - 1;
    if sum < WORD64 {
      ModIsSelf(sum, WORD64);
    } else {
      SameQuotient(sum / WORD64, sum % WORD64, 1, sum - WORD64, WORD64);
    }
  }

  /** An allocation succeeds exactly for a size that is not 0, a symbol that exists, and a free
      region that fits or a size that can be rounded up; running out of frames is no failure. */
  lemma AllocSucceeds(v: View, rg: int, size: nat)
    requires WellFormed(v) && v.mm.brk + Growth(v, rg, size) <= BUS_SPAN && size < WORD64
    ensures Alloc(v, rg, size).value.Some?
       <==> size != 0 && 0 <= rg < 30
            && ((exists i :: 0 <= i < |v.mm.spare| && 0 < Int32(size)
                             && v.mm.spare[i].lo + Int32(size) <= v.mm.spare[i].hi)
                || size + 4095 < 0x1_0000_0000_0000_0000)
  {
    AlignedSizeRounds(size);
    var i := FirstFit(v.mm.spare, Int32(size));
    if i < |v.mm.spare| { assert v.mm.spare[i].lo + Int32(size) <= v.mm.spare[i].hi; }
  }

  /** The region handed out begins at the returned address, and has the size asked for exactly
      when that fits an `int` or no free region was cut. */
  lemma AllocHandsOut(v: View, rg: int, size: nat)
    requires WellFormed(v) && v.mm.brk + Growth(v, rg, size) <= BUS_SPAN
    requires Alloc(v, rg, size).value.Some?
    ensures var r := Alloc(v, rg, size);
            && 0 <= rg < MAX_SYMS == |r.view.mm.syms| && r.view.mm.syms[rg].lo == r.value.value < r.view.mm.syms[rg].hi
            && (forall k :: 0 <= k < MAX_SYMS && k != rg ==> r.view.mm.syms[k] == v.mm.syms[k])
            && (r.view.mm.syms[rg].hi == r.value.value + size
                <==> size < 0x8000_0000 || FirstFit(v.mm.spare, Int32(size)) == |v.mm.spare|)
  {
    if size < WORD32 { ModIsSelf(size, WORD32); }
    if FirstFit(v.mm.spare, Int32(size)) == |v.mm.spare| {
      var (frames, free) := AllocPages(v.ram.free, AlignedSize(size) / GROW_UNIT);
      MapAllArea(View(Extended(v.mm, rg, size), v.ram.(free := free), v.swap), v.mm.brk / PAGE_SIZE, frames);
    }
  }

  /** What was just freed is handed out again: the list is searched from its newest region. */
  lemma AllocAfterFree(v: View, rg: int, rg': int)
    requires WellFormed(v) && 0 <= rg < MAX_SYMS && 0 <= rg' < MAX_SYMS
    requires v.mm.syms[rg].lo < v.mm.syms[rg].hi < 0x8000_0000
    ensures WellFormed(Free(v, rg).view)
    ensures var r := v.mm.syms[rg]; var v' := Free(v, rg).view;
            && Free(v, rg).value.Some? && Growth(v', rg', r.hi - r.lo) == 0
            && Alloc(v', rg', r.hi - r.lo).value == Some(r.lo)
            && Alloc(v', rg', r.hi - r.lo).view.mm.syms == v'.mm.syms[rg' := r]
  {
    FreeWellFormed(v, rg);
    ModIsSelf(v.mm.syms[rg].hi - v.mm.syms[rg].lo, WORD32);
  }

  /** Entry i is the first of the list that holds k bytes. */
  predicate FirstHolding(spare: seq<Region>, i: nat, k: nat) {
    && i < |spare| && spare[i].lo + k <= spare[i].hi
    && forall j :: 0 <= j < i ==> spare[j].hi < spare[j].lo + k
  }

  /** The list once k bytes are cut from the front of entry i: the entries before it stand.  If bytes
      are left over they stay in its place and the entries behind stand too; else the entries behind
      move up, and if there are none an empty region stays in its place. */
  predicate CutAt(spare: seq<Region>, spare': seq<Region>, i: nat, k: nat)
    requires i < |spare|
  {
    var r := spare[i];
    && i <= |spare'| && (forall j :: 0 <= j < i ==> spare'[j] == spare[j])
    && (r.lo + k < r.hi ==>
          && |spare'| == |spare| && spare'[i] == Region(r.lo + k, r.hi)
          && (forall j :: i < j < |spare| ==> spare'[j] == spare[j]))
    && (r.lo + k == r.hi && i < |spare| - 1 ==>
          && |spare'| == |spare| - 1 && (forall j :: i <= j < |spare'| ==> spare'[j] == spare[j + 1]))
    && (r.lo + k == r.hi && i == |spare| - 1 ==>
          |spare'| == |spare| && spare'[i] == Region(r.hi, r.hi))
  }

  /** An allocation that the free list can serve, its size taken as `int`: the first entry that holds
      it is cut, the symbol gets the bytes cut off, and nothing else changes. */
  lemma AllocCuts(v: View, rg: nat, size: nat, i: nat, k: nat)
    requires WellFormed(v) && rg < 30 && 0 < k < 0x8000_0000 && size % 0x1_0000_0000 == k
    requires FirstHolding(v.mm.spare, i, k)
    ensures Growth(v, rg, size) == 0 && |v.mm.syms| == 30
    ensures var r := Alloc(v, rg, size); var lo := v.mm.spare[i].lo;
            && r.value == Some(lo) && r.view.mm.syms == v.mm.syms[rg := Region(lo, lo + k)]
            && CutAt(v.mm.spare, r.view.mm.spare, i, k)
            && r.view == v.(mm := v.mm.(syms := r.view.mm.syms, spare := r.view.mm.spare))
  {
    assert Int32(size) == k;
    FirstFitIs(v.mm.spare, i, k);
  }

  lemma {:induction false} FirstFitIs(spare: seq<Region>, i: nat, k: nat)
    requires 0 < k && FirstHolding(spare, i, k)
    ensures FirstFit(spare, k) == i
  {
    if i == 0 {
    } else {
      FirstFitIs(spare[1..], i - 1, k);
    }
  }

  /** The next allocation that what was left over holds, and no entry before it, goes on where this
      one ended. */
  lemma AllocContinues(v: View, rg: nat, rg': nat, size: nat, size': nat, i: nat)
    requires WellFormed(v) && rg < 30 && rg' < 30 && 0 < size < 0x8000_0000 && 0 < size' < 0x8000_0000
    requires FirstHolding(v.mm.spare, i, size) && v.mm.spare[i].lo + size + size' <= v.mm.spare[i].hi
    requires forall j :: 0 <= j < i ==> v.mm.spare[j].hi < v.mm.spare[j].lo + size'
    ensures Growth(v, rg, size) == 0 && WellFormed(Alloc(v, rg, size).view)
    ensures var v1 := Alloc(v, rg, size).view;
            && Growth(v1, rg', size') == 0
            && Alloc(v1, rg', size').value == Some(v.mm.spare[i].lo + size)
  {
    assert size % 0x1_0000_0000 == size && size' % 0x1_0000_0000 == size';
    AllocCuts(v, rg, size, i, size);
    var v1 := Alloc(v, rg, size).view;
    CutWithinBreak(v, v1.mm.spare, i, size);
    hide Alloc, Growth;
    SameMapping(v, v1);
    hide WellFormed;
    assert v1.mm.spare[i] == Region(v.mm.spare[i].lo + size, v.mm.spare[i].hi);
    AllocCuts(v1, rg', size', i, size');
  }

  lemma CutWithinBreak(v: View, spare': seq<Region>, i: nat, k: nat)
    requires WellFormed(v) && FirstHolding(v.mm.spare, i, k) && CutAt(v.mm.spare, spare', i, k)
    ensures v.mm.spare[i].lo + k <= v.mm.brk
    ensures forall j :: 0 <= j < |spare'| ==> spare'[j].hi <= v.mm.brk
  {
  }

  /** A change of regions below the break keeps a view well formed. */
  lemma SameMapping(v: View, v': View)
    requires WellFormed(v) && v' == v.(mm := v.mm.(syms := v'.mm.syms, spare := v'.mm.spare))
    requires |v'.mm.syms| == MAX_SYMS
    requires forall i :: 0 <= i < MAX_SYMS ==> v'.mm.syms[i].hi <= v.mm.brk
    requires forall i :: 0 <= i < |v'.mm.spare| ==> v'.mm.spare[i].hi <= v.mm.brk
    ensures WellFormed(v')
  {
    forall g | 0 <= g < MAX_PGN
      ensures EntryOk(v', v'.mm.pages[g])
    {
      assert EntryOk(v, v.mm.pages[g]);
    }
  }

  /** `__free`: exactly a symbol whose region is not [0, 0) can be freed; it becomes empty, its region
      heads the free list unless it is empty, and nothing else changes. */
  lemma FreeMeans(v: View, rg: int)
    requires WellFormed(v)
    ensures var r := Free(v, rg);
            && |v.mm.syms| == 30
            && (r.value.Some? <==> 0 <= rg < 30 && v.mm.syms[rg] != Region(0, 0))
            && (r.value.None? ==> r.view == v)
            && (r.value.Some? ==>
                  && r.view == v.(mm := v.mm.(syms := v.mm.syms[rg := Region(0, 0)], spare := r.view.mm.spare))
                  && (v.mm.syms[rg].lo < v.mm.syms[rg].hi ==>
                        && |r.view.mm.spare| > 0 && r.view.mm.spare[0] == v.mm.syms[rg]
                        && r.view.mm.spare[1..] == v.mm.spare)
                  && (v.mm.syms[rg].hi <= v.mm.syms[rg].lo ==> r.view.mm.spare == v.mm.spare))
  {
  }

  /** The i-th page from g is mapped to the i-th frame and listed i places after the first n. */
  ghost predicate MapsOne(mm: Mm, g: nat, n: nat, frames: seq<nat>, i: nat) {
    && i < |frames| && g + i < |mm.pages| && n + i < |mm.fifo|
    && mm.pages[g + i] == Resident(frames[i]) && mm.fifo[n + i] == g + i
  }

  /** Pages g, g + 1, ... were mapped to these frames, and listed, in order; no other page changed. */
  ghost predicate MapsInOrder(mm: Mm, mm': Mm, g: nat, frames: seq<nat>) {
    && |mm'.pages| == |mm.pages| && g + |frames| <= |mm.pages| && |mm'.fifo| == |mm.fifo| + |frames|
    && mm'.fifo[..|mm.fifo|] == mm.fifo
    && (forall i :: 0 <= i < |frames| ==> MapsOne(mm', g, |mm.fifo|, frames, i))
    && (forall h :: 0 <= h < |mm.pages| && !(g <= h < g + |frames|) ==> mm'.pages[h] == mm.pages[h])
  }

  /** Growing maps one fresh page for every 4096 bytes, to the first free frames in order; with
      too few frames it maps none, and the list comes back reversed. */
  lemma GrowMaps(v: View, rg: nat, size: nat)
    requires WellFormed(v) && rg < MAX_SYMS && size <= AlignedSize(size)
    requires v.mm.brk + AlignedSize(size) <= BUS_SPAN
    ensures var v' := Grow(v, rg, size); var n := AlignedSize(size) / GROW_UNIT;
            && MapsInOrder(v.mm, v'.mm, v.mm.brk / PAGE_SIZE, if n <= |v.ram.free| then v.ram.free[..n] else [])
            && v'.ram.free == (if n <= |v.ram.free| then v.ram.free[n..] else Reverse(v.ram.free))
            && v'.ram.frames == v.ram.frames && v'.swap == v.swap
  {
    var (frames, free) := AllocPages(v.ram.free, AlignedSize(size) / GROW_UNIT);
    var x := Extended(v.mm, rg, size);
    hide MapAll, MapsInOrder;
    MapAllMaps(View(x, v.ram.(free := free), v.swap), v.mm.brk / PAGE_SIZE, frames);
    SamePagesMapped(v.mm, x, Grow(v, rg, size).mm, v.mm.brk / PAGE_SIZE, frames);
  }

  /** The area after a growth: new break, the symbol's region, the leftover in front of the list. */
  lemma GrowArea(v: View, rg: nat, size: nat)
    requires WellFormed(v) && rg < MAX_SYMS && size <= AlignedSize(size) && v.mm.brk + AlignedSize(size) <= BUS_SPAN
    ensures var x := Extended(v.mm, rg, size); var mm := Grow(v, rg, size).mm;
            mm.brk == x.brk && mm.syms == x.syms && mm.spare == x.spare
  {
    var (frames, free) := AllocPages(v.ram.free, AlignedSize(size) / GROW_UNIT);
    MapAllArea(View(Extended(v.mm, rg, size), v.ram.(free := free), v.swap), v.mm.brk / PAGE_SIZE, frames);
    hide WellFormed, Extended, MapAll, AllocPages;
  }

  lemma AllocIsGrow(v: View, rg: nat, size: nat)
    requires WellFormed(v) && rg < MAX_SYMS && 0 < size <= AlignedSize(size)
    requires FirstFit(v.mm.spare, Int32(size)) == |v.mm.spare|
    requires v.mm.brk + AlignedSize(size) <= BUS_SPAN
    ensures Growth(v, rg, size) == AlignedSize(size) && Alloc(v, rg, size) == Reply(Grow(v, rg, size), Some(v.mm.brk))
  {
    hide WellFormed, FirstFit, AlignedSize, Int32, Grow, Carve;
  }

  /** An allocation that no free region can serve: the whole new state. */
  lemma AllocGrows(v: View, rg: nat, size: nat)
    requires WellFormed(v) && rg < MAX_SYMS && 0 < size <= AlignedSize(size)
    requires FirstFit(v.mm.spare, Int32(size)) == |v.mm.spare|
    requires v.mm.brk + AlignedSize(size) <= BUS_SPAN
    ensures Growth(v, rg, size) == AlignedSize(size)
    ensures var r := Alloc(v, rg, size); var hi := v.mm.brk + AlignedSize(size); var n := AlignedSize(size) / GROW_UNIT;
            && r.value == Some(v.mm.brk) && r.view.mm.brk == hi
            && r.view.mm.syms == v.mm.syms[rg := Region(v.mm.brk, v.mm.brk + size)]
            && r.view.mm.spare == (if v.mm.brk + size < hi then [Region(v.mm.brk + size, hi)] else []) + v.mm.spare
            && MapsInOrder(v.mm, r.view.mm, v.mm.brk / PAGE_SIZE, if n <= |v.ram.free| then v.ram.free[..n] else [])
            && r.view.ram.free == (if n <= |v.ram.free| then v.ram.free[n..] else Reverse(v.ram.free))
            && |r.view.ram.frames| == |v.ram.frames|
  {
    assert |v.mm.syms| == MAX_SYMS;
    hide MapsInOrder, Grow, WellFormed, FirstFit, AlignedSize, Reverse, Int32, Alloc, Growth;
    AllocIsGrow(v, rg, size);
    GrowMaps(v, rg, size);
    GrowArea(v, rg, size);
  }

  lemma SamePagesMapped(mm: Mm, x: Mm, mm': Mm, g: nat, frames: seq<nat>)
    requires MapsInOrder(x, mm', g, frames) && x.pages == mm.pages && x.fifo == mm.fifo
    ensures MapsInOrder(mm, mm', g, frames)
  {
  }

  lemma {:induction false} MapAllMaps(v: View, g: nat, frames: seq<nat>)
    requires g + |frames| <= |v.mm.pages|
    ensures var v' := MapAll(v, g, frames); v'.ram == v.ram && v'.swap == v.swap && MapsInOrder(v.mm, v'.mm, g, frames)
    decreases |frames|
  {
    hide MapsInOrder;
    if frames == [] {
      MapsNone(v.mm, g);
    } else {
      var v1 := Map(v, g, frames[0]);
      MapAllMaps(v1, g + 1, frames[1..]);
      MapsOneMore(v.mm, v1.mm, MapAll(v1, g + 1, frames[1..]).mm, g, frames);
    }
  }

  lemma MapsNone(mm: Mm, g: nat)
    requires g <= |mm.pages|
    ensures MapsInOrder(mm, mm, g, [])
  {
    assert mm.fifo[..|mm.fifo|] == mm.fifo;
  }

  lemma MapsOneMore(mm: Mm, mm1: Mm, mm': Mm, g: nat, frames: seq<nat>)
    requires frames != [] && g + |frames| <= |mm.pages| && MapsInOrder(mm1, mm', g + 1, frames[1..])
    requires mm1.pages == mm.pages[g := Resident(frames[0])] && mm1.fifo == mm.fifo + [g]
    ensures MapsInOrder(mm, mm', g, frames)
  {
    var n := |mm.fifo|;
    assert mm'.fifo[..n + 1] == mm.fifo + [g];
    assert mm'.fifo[..n] == mm'.fifo[..n + 1][..n] == mm.fifo;
    assert mm'.fifo[n] == mm'.fifo[..n + 1][n] == g;
    forall i | 0 <= i < |frames|
      ensures MapsOne(mm', g, n, frames, i)
    {
      if i > 0 { assert MapsOne(mm', g + 1, n + 1, frames[1..], i - 1); }
    }
  }
}
