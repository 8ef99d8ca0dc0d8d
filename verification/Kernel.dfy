/** One process's memory calls on the real arrays (src/libmem.c, src/mm64.c, src/mm-vm.c). */
module Kernels {
  import opened Options
  import opened Sequences
  import opened PteCodec
  import opened Paging
  import opened MemPhyDevice
  import opened MmStructs
  import opened CopyLoops
  import opened Regions
  import opened Reclaim

  /** krnl_t as far as memory goes: the process's mm and the devices it shares. */
  class Kernel {
    const mm: MmStruct
    const mram: MemPhy
    const activeMswp: MemPhy

    ghost function Repr(): set<object> {
      {mm, mm.pgd, mm.symrgtbl, mram, mram.storage, activeMswp, activeMswp.storage}
    }

    ghost predicate Separate() {
      && mram != activeMswp && mram.storage != activeMswp.storage
      && mm.pgd as object != mm.symrgtbl && mm.pgd as object !in {mram.storage, activeMswp.storage}
      && mm.symrgtbl as object !in {mram.storage, activeMswp.storage}
    }

    ghost function Abs(): View
      reads Repr()
    {
      View(mm.Abs(), mram.Dev(), activeMswp.Dev())
    }

    /** At most 2^13 RAM frames and 2^21 swap slots, the widths of the page-table fields. */
    ghost predicate Valid()
      reads Repr()
    {
      && Separate() && mm.Valid() && WellFormed(Abs()) && BelowBreak(Abs().mm)
      && |Abs().ram.frames| <= FPN_SPAN && |Abs().swap.frames| <= SWPOFF_SPAN
    }

    constructor (mm: MmStruct, mram: MemPhy, activeMswp: MemPhy)
      ensures this.mm == mm && this.mram == mram && this.activeMswp == activeMswp
    {
      this.mm, this.mram, this.activeMswp := mm, mram, activeMswp;
    }

    /** The eviction half of pg_getpage. */
    method EvictPage() returns (r: Option<nat>)
      requires Valid() && mram.freeFp == []
      modifies Repr()
      ensures Valid() && Reply(Abs(), r) == Obtain(old(Abs()))
    {
      ObtainWellFormed(Abs());
      ObtainReady(Abs());
      var victim := mm.FindVictimPage();
      if victim.None? {
        return None;
      }
      var vicpgn := victim.value;
      assert vicpgn == old(mm.fifoPgn)[|old(mm.fifoPgn)| - 1];
      assert old(EntryOk(Abs(), mm.Abs().pages[vicpgn]));
      var vicfpn := Fpn(mm.pgd[vicpgn]);
      var swpfpn := activeMswp.GetFreeFp();
      if swpfpn.None? {
        return None;
      }
      SwapCpPage(mram, vicfpn, activeMswp, swpfpn.value);
      mm.PteSetSwap(vicpgn, 0, swpfpn.value);
      r := Some(vicfpn);
    }

    /** pg_getpage. */
    method PgGetPage(pgn: nat) returns (r: Option<nat>)
      requires Valid() && pgn < MAX_PGN && pgn * PAGE_SIZE < mm.sbrk
      modifies Repr()
      ensures Valid() && Reply(Abs(), r) == Fault(old(Abs()), pgn)
    {
      ghost var v := Abs();
      FaultWellFormed(v, pgn);
      ObtainReady(v);
      var pte := mm.pgd[pgn];
      assert v.mm.pages[pgn] == Decode(pte);
      if Present(pte) {
        return Some(Fpn(pte));
      }
      var tgtfpn := mram.GetFreeFp();
      if tgtfpn.None? {
        tgtfpn := EvictPage();
        if tgtfpn.None? {
          return None;
        }
      }
      assert Abs() == Obtain(v).view && tgtfpn == Obtain(v).value;
      assert Abs().mm.pages[pgn] == Decode(pte);
      if SwappedOut(pte) {
        SwapCpPage(activeMswp, Swp(pte), mram, tgtfpn.value);
      }
      mm.PteSetFpn(pgn, tgtfpn.value);
      mm.EnlistPgnNode(pgn);
      r := tgtfpn;
    }

    /** The checks __read and __write make on a symbol and an offset. */
    method Locate(rgid: int, offset: nat) returns (a: Option<nat>)
      requires Valid()
      ensures a == Target(Abs().mm, rgid, offset)
      ensures a.Some? ==> a.value < BUS_SPAN && Pgn(a.value) * PAGE_SIZE < mm.sbrk
                          && a.value == Pgn(a.value) * PAGE_SIZE + Offset(a.value)
    {
      if rgid < 0 || rgid >= MAX_SYMS {
        return None;
      }
      var currg := mm.symrgtbl[rgid];
      var addr := (currg.lo + offset) % WORD64;
      if currg.lo == currg.hi || addr >= currg.hi {
        return None;
      }
      AddressSplit(addr, 0);
      a := Some(addr);
    }

    /** pg_getval. */
    method PgGetVal(addr: nat) returns (data: Option<Byte>)
      requires Valid() && addr < BUS_SPAN && Pgn(addr) * PAGE_SIZE < mm.sbrk
      modifies Repr()
      ensures Valid() && Reply(Abs(), data) == Paging.PgGetVal(old(Abs()), addr)
    {
      FaultReady(Abs(), Pgn(addr));
      hide Fault, WellFormed, BelowBreak, DecodeAll, Paginate;
      var fpn := PgGetPage(Pgn(addr));
      if fpn.None? {
        return None;
      }
      var byte := mram.Read(fpn.value * PAGE_SIZE + Offset(addr));
      data := Some(byte);
    }

    /** pg_setval. */
    method PgSetVal(addr: nat, value: Byte) returns (ok: Option<()>)
      requires Valid() && addr < BUS_SPAN && Pgn(addr) * PAGE_SIZE < mm.sbrk
      modifies Repr()
      ensures Valid() && Reply(Abs(), ok) == Paging.PgSetVal(old(Abs()), addr, value)
    {
      PgSetValWellFormed(Abs(), addr, value);
      FaultReady(Abs(), Pgn(addr));
      hide Fault, WellFormed, BelowBreak, DecodeAll, Paginate, DeviceOk;
      var fpn := PgGetPage(Pgn(addr));
      if fpn.None? {
        return None;
      }
      PokeByte(fpn.value, Offset(addr), value);
      ok := Some(());
    }

    /** MEMPHY_write to a byte of a RAM frame. */
    method PokeByte(fpn: nat, off: nat, value: Byte)
      requires Separate() && mm.Valid() && fpn < |Abs().ram.frames| && off < PAGE_SIZE == |Abs().ram.frames[fpn]|
      modifies mram.storage
      ensures mm.Valid() && Abs() == Poke(old(Abs()), fpn, off, value)
    {
      hide DecodeAll, Paginate;
      mram.Write(fpn * PAGE_SIZE + off, value);
    }

    static lemma PgSetValWellFormed(v: View, addr: nat, b: Byte)
      requires WellFormed(v)
      ensures WellFormed(Paging.PgSetVal(v, addr, b).view)
    {
      FaultReady(v, Pgn(addr));
      FaultWellFormed(v, Pgn(addr));
      SameEntries(Fault(v, Pgn(addr)).view, Paging.PgSetVal(v, addr, b).view);
    }

    /** __read. */
    method Read(rgid: int, offset: nat) returns (data: Option<Byte>)
      requires Valid()
      modifies Repr()
      ensures Valid() && Reply(Abs(), data) == Paging.Read(old(Abs()), rgid, offset)
    {
      hide Paging.PgGetVal, Target;
      var a := Locate(rgid, offset);
      if a.Some? {
        data := PgGetVal(a.value);
      } else {
        data := None;
      }
    }

    /** __write. */
    method Write(rgid: int, offset: nat, value: Byte) returns (ok: Option<()>)
      requires Valid()
      modifies Repr()
      ensures Valid() && Reply(Abs(), ok) == Paging.Write(old(Abs()), rgid, offset, value)
    {
      hide Paging.PgSetVal, Target;
      var a := Locate(rgid, offset);
      if a.Some? {
        ok := PgSetVal(a.value, value);
      } else {
        ok := None;
      }
    }

    /** alloc_pages_range: all the frames asked for, or none and the list reversed. */
    method AllocPagesRange(reqPgnum: nat) returns (frmLst: seq<nat>)
      requires Valid()
      modifies mram`freeFp
      ensures mram.Dev().frames == old(mram.Dev().frames)
      ensures (frmLst, mram.freeFp) == AllocPages(old(mram.freeFp), reqPgnum)
    {
      frmLst := [];
      for i := 0 to reqPgnum
        invariant mram.Valid() && mram.Dev().frames == old(mram.Dev().frames)
        invariant i <= |old(mram.freeFp)| && frmLst == old(mram.freeFp)[..i] && mram.freeFp == old(mram.freeFp)[i..]
      {
        var fpn := mram.GetFreeFp();
        if fpn.None? {
          assert frmLst == old(mram.freeFp);
          PutBack(frmLst);
          return [];
        }
        frmLst := frmLst + [fpn.value];
      }
    }

    /** The cleanup loop of alloc_pages_range. */
    method PutBack(frames: seq<nat>)
      requires mram.freeFp == []
      modifies mram`freeFp
      ensures mram.Dev().frames == old(mram.Dev().frames) && mram.freeFp == Reverse(frames)
    {
      var head := 0;
      while head < |frames|
        invariant 0 <= head <= |frames| && mram.Dev().frames == old(mram.Dev().frames)
        invariant Reverse(frames) == Reverse(frames[head..]) + mram.freeFp
      {
        assert frames[head..][1..] == frames[head + 1..];
        mram.PutFreeFp(frames[head]);
        head := head + 1;
      }
    }

    /** vmap_page_range. */
    method VmapPageRange(addr: nat, pgnum: nat, frames: seq<nat>)
      requires Separate() && mm.Valid() && |frames| <= pgnum && addr < BUS_SPAN && Pgn(addr) + |frames| <= MAX_PGN
      requires forall i :: 0 <= i < |frames| ==> frames[i] < FPN_SPAN
      modifies mm`fifoPgn, mm.pgd
      ensures mm.Valid() && Abs() == MapAll(old(Abs()), Pgn(addr), frames)
    {
      var pgnStart := Pgn(addr);
      var i := 0;
      while i < pgnum
        invariant 0 <= i <= |frames| && mm.Valid()
        invariant |Abs().mm.pages| == MAX_PGN
        invariant MapAll(old(Abs()), pgnStart, frames) == MapAll(Abs(), pgnStart + i, frames[i..])
        decreases |frames| - i
      {
        if i == |frames| {
          break;
        }
        assert frames[i..][1..] == frames[i + 1..];
        mm.PteSetFpn(pgnStart + i, frames[i]);
        mm.EnlistPgnNode(pgnStart + i);
        i := i + 1;
      }
    }

    /** vm_map_ram. */
    method VmMapRam(mapstart: nat, incpgnum: nat, ghost v: View)
      requires Valid() && v == Abs() && mapstart < BUS_SPAN && Pgn(mapstart) + incpgnum <= MAX_PGN
      modifies mram`freeFp, mm`fifoPgn, mm.pgd
      ensures mm.Valid()
      ensures var (frames, free) := AllocPages(v.ram.free, incpgnum);
              |frames| <= incpgnum && Abs() == MapAll(v.(ram := v.ram.(free := free)), Pgn(mapstart), frames)
    {
      AllocPagesSound(v.ram, incpgnum);
      hide WellFormed, BelowBreak, MapAll, AllocPages, DecodeAll, Paginate;
      var frmLst := AllocPagesRange(incpgnum);
      assert Abs() == v.(ram := v.ram.(free := mram.freeFp));
      VmapPageRange(mapstart, incpgnum, frmLst);
    }

    /** The area that inc_vma_limit leaves, from the one it has after mapping. */
    static ghost function Moved(w: Mm, incSz: nat, alignedSz: nat): Mm {
      var hi := w.brk + alignedSz;
      w.(brk := hi, spare := (if w.brk + incSz < hi then [Region(w.brk + incSz, hi)] else []) + w.spare)
    }

    static lemma MapThenMove(v: View, rgid: nat, incSz: nat, w: View)
      requires WellFormed(v) && rgid < MAX_SYMS && incSz <= AlignedSize(incSz)
      requires v.mm.brk + AlignedSize(incSz) <= BUS_SPAN
      requires var (frames, free) := AllocPages(v.ram.free, AlignedSize(incSz) / GROW_UNIT);
               w == MapAll(v.(ram := v.ram.(free := free)), v.mm.brk / PAGE_SIZE, frames)
      ensures var g := Grow(v, rgid, incSz);
              w.(mm := Moved(w.mm, incSz, AlignedSize(incSz))) == g.(mm := g.mm.(syms := v.mm.syms))
    {
      var (frames, free) := AllocPages(v.ram.free, AlignedSize(incSz) / GROW_UNIT);
      NothingOverrun(v, incSz);
      MapAllArea(v.(ram := v.ram.(free := free)), v.mm.brk / PAGE_SIZE, frames);
      GrowMapsFirst(v, rgid, incSz);
      hide WellFormed, Grow, MapAll, AllocPages;
    }

    static lemma NothingOverrun(v: View, incSz: nat)
      requires WellFormed(v) && v.mm.brk + AlignedSize(incSz) <= BUS_SPAN
      ensures v.mm.brk / PAGE_SIZE + |AllocPages(v.ram.free, AlignedSize(incSz) / GROW_UNIT).0| <= |v.mm.pages|
    {
      AllocPagesSound(v.ram, AlignedSize(incSz) / GROW_UNIT);
    }

    /** inc_vma_limit.  The break moves even when no frame could be mapped: the tests for a failed
        mapping compare an unsigned value with 0. */
    method IncVmaLimit(incSz: nat, ghost rgid: nat, ghost v: View) returns (ok: bool)
      requires Valid() && v == Abs() && rgid < MAX_SYMS && 0 < incSz
      requires incSz <= AlignedSize(incSz) ==> mm.sbrk + AlignedSize(incSz) <= BUS_SPAN
      modifies Repr()
      ensures Separate() && mm.Valid() && ok == (incSz <= AlignedSize(incSz))
      ensures Abs() == if ok then Grow(v, rgid, incSz).(mm := Grow(v, rgid, incSz).mm.(syms := v.mm.syms)) else v
    {
      var alignedSz := (incSz + GROW_UNIT - 1) % WORD64 / GROW_UNIT * GROW_UNIT;
      var incnumpage := alignedSz / GROW_UNIT;
      if alignedSz < incSz {
        return false;
      }
      AddressSplit(mm.vmEnd, 0);
      hide WellFormed, BelowBreak, Grow, MapAll, AllocPages, DecodeAll, Paginate, Moved;
      VmMapRam(mm.vmEnd, incnumpage, v);
      ghost var w := Abs();
      MapThenMove(v, rgid, incSz, w);
      MoveBreak(incSz, alignedSz);
      assert Abs() == w.(mm := Moved(w.mm, incSz, alignedSz));
      ok := true;
    }

    /** The end of inc_vma_limit: the break and the leftover of the new area. */
    method MoveBreak(incSz: nat, alignedSz: nat)
      requires mm.Valid() && incSz <= alignedSz
      modifies mm`vmEnd, mm`sbrk, mm`freergList
      ensures mm.Valid() && mm.Abs() == Moved(old(mm.Abs()), incSz, alignedSz)
    {
      var start := mm.sbrk;
      mm.vmEnd := start + alignedSz;
      mm.sbrk := start + alignedSz;
      if start + incSz < start + alignedSz {
        mm.freergList := [Region(start + incSz, start + alignedSz)] + mm.freergList;
      }
    }

    /** __alloc. */
    method Alloc(rgid: int, size: nat) returns (allocAddr: Option<nat>)
      requires Valid() && mm.sbrk + Growth(Abs(), rgid, size) <= BUS_SPAN
      modifies Repr()
      ensures Valid() && Reply(Abs(), allocAddr) == Paging.Alloc(old(Abs()), rgid, size)
    {
      ghost var v := Abs();
      if size == 0 || rgid < 0 || rgid >= MAX_SYMS {
        return None;
      }
      AllocWellFormed(v, rgid, size);
      AllocSizes(v, rgid, size);
      hide WellFormed, BelowBreak, Grow, DecodeAll, Paginate, Carve;
      allocAddr := AllocFromFreeList(rgid, size, v);
      if allocAddr.None? {
        allocAddr := AllocAtBreak(rgid, size, v);
      }
    }

    static lemma AllocSizes(v: View, rgid: nat, size: nat)
      requires WellFormed(v) && rgid < MAX_SYMS && v.mm.brk + Growth(v, rgid, size) <= BUS_SPAN
      ensures var w := Paging.Alloc(v, rgid, size).view;
              |w.ram.frames| == |v.ram.frames| && |w.swap.frames| == |v.swap.frames|
    {
      if size != 0 && FirstFit(v.mm.spare, Int32(size)) == |v.mm.spare| && size <= AlignedSize(size) {
        GrowSymbol(v, rgid, size);
      }
    }

    /** The first half of __alloc: a free region that is large enough. */
    method AllocFromFreeList(rgid: nat, size: nat, ghost v: View) returns (allocAddr: Option<nat>)
      requires Valid() && v == Abs() && rgid < MAX_SYMS
      modifies mm`freergList, mm.symrgtbl
      ensures var i := FirstFit(v.mm.spare, Int32(size));
              if i < |v.mm.spare| then
                var lo := v.mm.spare[i].lo;
                && mm.Valid() && allocAddr == Some(lo)
                && Abs() == v.(mm := v.mm.(spare := Carve(v.mm.spare, i, Int32(size)),
                                           syms := v.mm.syms[rgid := Region(lo, lo + Int32(size))]))
              else Valid() && Abs() == v && allocAddr == None
    {
      hide WellFormed, BelowBreak, DecodeAll, Paginate, Carve;
      var rgnode := mm.GetFreeVmrgArea(Int32(size));
      if rgnode.None? {
        assert Abs() == v;
        return None;
      }
      mm.SetSymbol(rgid, rgnode.value);
      allocAddr := Some(rgnode.value.lo);
    }

    /** The second half of __alloc, when no free region is large enough. */
    method AllocAtBreak(rgid: nat, size: nat, ghost v: View) returns (allocAddr: Option<nat>)
      requires Valid() && v == Abs() && rgid < MAX_SYMS && 0 < size
      requires size <= AlignedSize(size) ==> mm.sbrk + AlignedSize(size) <= BUS_SPAN
      modifies Repr()
      ensures Separate() && mm.Valid()
      ensures Abs() == if size <= AlignedSize(size) then Grow(v, rgid, size) else v
      ensures allocAddr == if size <= AlignedSize(size) then Some(v.mm.brk) else None
    {
      if size <= AlignedSize(size) { GrowSymbol(v, rgid, size); }
      var oldSbrk := mm.sbrk;
      hide WellFormed, BelowBreak, Grow, DecodeAll, Paginate, Extended;
      var ok := IncVmaLimit(size, rgid, v);
      if !ok {
        return None;
      }
      mm.SetSymbol(rgid, Region(oldSbrk, oldSbrk + size));
      allocAddr := Some(oldSbrk);
    }

    static lemma GrowSymbol(v: View, rgid: nat, size: nat)
      requires WellFormed(v) && rgid < MAX_SYMS && size <= AlignedSize(size)
      requires v.mm.brk + AlignedSize(size) <= BUS_SPAN
      ensures Grow(v, rgid, size).mm.syms == v.mm.syms[rgid := Region(v.mm.brk, v.mm.brk + size)]
      ensures |Grow(v, rgid, size).ram.frames| == |v.ram.frames| && |Grow(v, rgid, size).swap.frames| == |v.swap.frames|
    {
      GrowArea(v, rgid, size);
      GrowMaps(v, rgid, size);
    }

    /** __free. */
    method Free(rgid: int) returns (ok: Option<()>)
      requires Valid()
      modifies Repr()
      ensures Valid() && Reply(Abs(), ok) == Paging.Free(old(Abs()), rgid)
    {
      ghost var v := Abs();
      FreeWellFormed(v, rgid);
      hide WellFormed, BelowBreak, DecodeAll, Paginate;
      var done := mm.Release(rgid);
      ok := if done then Some(()) else None;
    }

    /** The loop of libkmem_copy_from_user (dbase == 0) and libkmem_copy_to_user (sbase == 0). */
    method CopyLoop(src: int, sbase: nat, dst: int, dbase: nat, size: nat) returns (ok: Option<()>)
      requires Valid()
      modifies Repr()
      ensures Valid() && Reply(Abs(), ok) == Copy(old(Abs()), src, sbase, dst, dbase, size, 0)
    {
      hide Paging.Read, Paging.Write, WellFormed, BelowBreak, DecodeAll, Paginate;
      for i := 0 to size
        invariant Valid()
        invariant Copy(old(Abs()), src, sbase, dst, dbase, size, 0) == Copy(Abs(), src, sbase, dst, dbase, size, i)
      {
        var data := Read(src, (sbase + i) % WORD32);
        if data.None? {
          return None;
        }
        ok := Write(dst, (dbase + i) % WORD32, data.value);
        if ok.None? {
          return None;
        }
      }
      ok := Some(());
    }

    method CopyFromUser(source: int, destination: int, offset: nat, size: nat) returns (ok: Option<()>)
      requires Valid()
      modifies Repr()
      ensures Valid() && Reply(Abs(), ok) == CopyLoops.CopyFromUser(old(Abs()), source, destination, offset, size)
    {
      ok := CopyLoop(source, offset, destination, 0, size);
    }

    method CopyToUser(source: int, destination: int, offset: nat, size: nat) returns (ok: Option<()>)
      requires Valid()
      modifies Repr()
      ensures Valid() && Reply(Abs(), ok) == CopyLoops.CopyToUser(old(Abs()), source, destination, offset, size)
    {
      ok := CopyLoop(source, 0, destination, offset, size);
    }

    /** free_pcb_memph.  Words are not cleared, so the mm is dead afterwards and Valid() is not kept. */
    method FreePcbMemph()
      requires Valid()
      modifies mram`freeFp, activeMswp`freeFp
      ensures Abs() == FreeAll(old(Abs()))
    {
      for pagenum := 0 to SCAN_PAGES
        invariant Abs() == Collect(old(Abs()), pagenum)
        invariant mm.Valid() && mm.Abs() == old(mm.Abs())
      {
        var pte := mm.pgd[pagenum];
        assert mm.Abs().pages[pagenum] == Decode(pte);
        if Present(pte) {
          mram.PutFreeFp(Fpn(pte));
        } else if SwappedOut(pte) {
          activeMswp.PutFreeFp(Swp(pte));
        }
      }
    }
  }
}
