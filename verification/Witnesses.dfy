/** Runs from start-up on which the code fails what one would expect of it. */
module Witnesses {
  import opened Options
  import opened Sequences
  import opened PteCodec
  import opened Paging
  import opened Ownership
  import opened Regions
  import opened PagingRuns
  import opened Eviction
  import opened CopyLoops
  import opened Reclaim

  /** Devices that init_memphy accepts, with enough RAM for the runs below. */
  ghost predicate Devices(ram: seq<seq<Byte>>, swap: seq<seq<Byte>>) {
    && 64 <= |ram| <= FPN_SPAN && |swap| <= SWPOFF_SPAN
    && (forall f :: 0 <= f < |ram| ==> |ram[f]| == PAGE_SIZE)
    && (forall s :: 0 <= s < |swap| ==> |swap[s]| == PAGE_SIZE)
  }

  /** The state of the first process after its first allocation, of `size` bytes for symbol 0. */
  ghost predicate Began(m: Machine, size: nat) {
    && Good(m) && |m.procs| == 1 && |m.procs[0].syms| == MAX_SYMS && |m.procs[0].pages| == MAX_PGN
    && var mm := m.procs[0]; var hi := AlignedSize(size); var n := hi / GROW_UNIT;
       && mm.brk == hi && mm.syms == FreshMm().syms[0 := Region(0, size)]
       && mm.spare == (if size < hi then [Region(size, hi)] else []) + [Region(0, 0)]
       && (forall g :: 0 <= g < n && g < MAX_PGN ==> mm.pages[g].Resident?)
       && |mm.fifo| == n && (n > 0 ==> mm.fifo[0] == 0)
       && 64 <= |m.ram.frames| && |m.ram.frames| - n <= |m.ram.free|
  }

  /** One fresh process and all of RAM free. */
  ghost predicate Spawned(m: Machine) {
    Good(m) && m.procs == [FreshMm()] && 64 <= |m.ram.frames| == |m.ram.free|
  }

  lemma FirstAllocation(m: Machine, size: nat)
    requires Spawned(m) && 0 < size <= BUS_SPAN && AlignedSize(size) / GROW_UNIT <= |m.ram.frames|
    ensures Fits(m, OpAlloc(0, 0, size)) && Began(Exec(m, OpAlloc(0, 0, size)).0, size)
    ensures |Exec(m, OpAlloc(0, 0, size)).0.ram.frames| == |m.ram.frames|
  {
    var v := At(m, 0);
    GoodMeansWellFormed(m, 0);
    AlignedSizeRounds(size);
    assert Int32(size) == size;
    hide WellFormed, Inv, Disjoint;
    AllocGrows(v, 0, size);
    StepKeepsGood(m, OpAlloc(0, 0, size));
    var m' := Exec(m, OpAlloc(0, 0, size)).0;
    hide Good, Alloc;
    forall g | 0 <= g < AlignedSize(size) / GROW_UNIT
      ensures m'.procs[0].pages[g].Resident? && m'.procs[0].fifo[g] == g
    {
      assert MapsOne(m'.procs[0], 0, 0, v.ram.free[..AlignedSize(size) / GROW_UNIT], g);
    }
  }

  lemma Begin(ram: seq<seq<Byte>>, swap: seq<seq<Byte>>, size: nat)
    requires Devices(ram, swap) && 0 < size <= BUS_SPAN && AlignedSize(size) / GROW_UNIT <= |ram|
    ensures Good(Boot(ram, swap))
    ensures var ops := [OpSpawn, OpAlloc(0, 0, size)];
            && Runnable(Boot(ram, swap), ops) && Began(Final(Boot(ram, swap), ops), size)
            && |Final(Boot(ram, swap), ops).ram.frames| == |ram|
  {
    BootGood(ram, swap);
    var m := Boot(ram, swap);
    var m1 := Exec(m, OpSpawn).0;
    StepKeepsGood(m, OpSpawn);
    assert Spawned(m1) && |m1.ram.frames| == |ram|;
    hide Spawned, Began, Good, Inv;
    FirstAllocation(m1, size);
    assert Good(Exec(m1, OpAlloc(0, 0, size)).0) by { StepKeepsGood(m1, OpAlloc(0, 0, size)); }
    var m2 := Exec(m1, OpAlloc(0, 0, size)).0;
    assert Runnable(m2, []) && Final(m2, []) == m2;
    RunStep(m1, OpAlloc(0, 0, size), []);
    RunStep(m, OpSpawn, [OpAlloc(0, 0, size)]);
    assert [OpAlloc(0, 0, size)] + [] == [OpAlloc(0, 0, size)];
    assert [OpSpawn] + [OpAlloc(0, 0, size)] == [OpSpawn, OpAlloc(0, 0, size)];
  }

  lemma SmallSize(size: nat)
    requires 0 < size <= BUS_SPAN
    ensures Int32(size) == size && size <= AlignedSize(size)
    ensures size % GROW_UNIT == 0 ==> AlignedSize(size) == size
    ensures size <= GROW_UNIT ==> AlignedSize(size) == GROW_UNIT
  {
    AlignedSizeRounds(size);
  }

  /** The same process asks for at most a page's worth more, for symbol 1. */
  lemma Continue(m: Machine, size: nat, more: nat)
    requires Began(m, size) && 0 < size <= 0x2_0000 && size % GROW_UNIT == 0 && 0 < more <= GROW_UNIT
    ensures Fits(m, OpAlloc(0, 1, more)) && Good(Exec(m, OpAlloc(0, 1, more)).0)
    ensures var m' := Exec(m, OpAlloc(0, 1, more)).0;
            |m'.procs| == 1 && m'.ram.free != [] && GrewOnce(m.procs[0], m'.procs[0], size, more)
  {
    GoodMeansWellFormed(m, 0);
    SmallSize(size);
    hide Good, Inv, WellFormed, Alloc, AlignedSize, GrewOnce;
    GrowOnce(At(m, 0), size, more);
    StepKeepsGood(m, OpAlloc(0, 1, more));
  }

  ghost predicate GrewOnce(mm: Mm, mm': Mm, size: nat, more: nat) {
    && |mm.syms| == MAX_SYMS && mm'.syms == mm.syms[1 := Region(size, size + more)]
    && |mm'.pages| == MAX_PGN && size / PAGE_SIZE < MAX_PGN && mm'.pages[size / PAGE_SIZE].Resident?
  }

  lemma GrowOnce(v: View, size: nat, more: nat)
    requires WellFormed(v) && v.mm.brk == size && v.mm.spare == [Region(0, 0)] && 2 <= |v.ram.free|
    requires size + GROW_UNIT <= BUS_SPAN && 0 < more <= GROW_UNIT
    ensures Growth(v, 1, more) == GROW_UNIT
    ensures var v' := Alloc(v, 1, more).view; v'.ram.free != [] && GrewOnce(v.mm, v'.mm, size, more)
  {
    SmallSize(more);
    assert |v.mm.syms| == MAX_SYMS && |v.mm.pages| == MAX_PGN;
    hide WellFormed, AlignedSize, Int32, MapsInOrder, Alloc;
    AllocGrows(v, 1, more);
    FirstPageMapped(v.mm, Alloc(v, 1, more).view.mm, size / PAGE_SIZE, v.ram.free[..1]);
  }

  lemma FirstPageMapped(mm: Mm, mm': Mm, g: nat, frames: seq<nat>)
    requires MapsInOrder(mm, mm', g, frames) && frames != []
    ensures g < |mm.pages| == |mm'.pages| && mm'.pages[g].Resident?
  {
    assert MapsOne(mm', g, |mm.fifo|, frames, 0);
  }

  /** get_free_vmrg_area takes its size as `int`: 4 GiB and a byte are served from the leftover of
      the first allocation with one byte. */
  lemma AllocationCutShort(ram: seq<seq<Byte>>, swap: seq<seq<Byte>>)
    requires Devices(ram, swap)
    ensures Good(Boot(ram, swap)) && Runnable(Boot(ram, swap), [OpSpawn, OpAlloc(0, 0, 1)])
    ensures var v := At(Final(Boot(ram, swap), [OpSpawn, OpAlloc(0, 0, 1)]), 0);
            && Growth(v, 1, 0x1_0000_0001) == 0
            && Alloc(v, 1, 0x1_0000_0001).value == Some(1) && Alloc(v, 1, 0x1_0000_0001).view.mm.syms[1] == Region(1, 2)
  {
    Begin(ram, swap, 1);
    var v := At(Final(Boot(ram, swap), [OpSpawn, OpAlloc(0, 0, 1)]), 0);
    assert v.mm.spare[0] == Region(1, 4096);
  }

  /** The 64-bit sum: offset 2^64 - 1 through symbol 1 at [4096, 4196) stores into the last byte of
      symbol 0 at [0, 4096). */
  lemma StoreIntoNeighbour(ram: seq<seq<Byte>>, swap: seq<seq<Byte>>, b: Byte)
    requires Devices(ram, swap)
    ensures Good(Boot(ram, swap)) && Runnable(Boot(ram, swap), [OpSpawn, OpAlloc(0, 0, 4096)] + [OpAlloc(0, 1, 100)])
    ensures var m := Final(Boot(ram, swap), [OpSpawn, OpAlloc(0, 0, 4096)] + [OpAlloc(0, 1, 100)]);
            && |m.procs| == 1 && |m.procs[0].syms| == MAX_SYMS
            && m.procs[0].syms[0] == Region(0, 4096) && m.procs[0].syms[1] == Region(4096, 4196)
            && Target(m.procs[0], 1, WORD64 - 1) == Some(4095)
            && Write(At(m, 0), 1, WORD64 - 1, b).value.Some?
            && Peek(With(m, 0, Write(At(m, 0), 1, WORD64 - 1, b).view), 0, 4095) == Some(b)
  {
    Begin(ram, swap, 4096);
    var m0 := Boot(ram, swap);
    var m2 := Final(m0, [OpSpawn, OpAlloc(0, 0, 4096)]);
    Continue(m2, 4096, 100);
    OneMoreCall(m0, [OpSpawn, OpAlloc(0, 0, 4096)], OpAlloc(0, 1, 100));
    hide Runnable, Final, Exec, Write, Peek, Good, Target;
    var m := Exec(m2, OpAlloc(0, 1, 100)).0;
    StoreBehind(m, b);
  }

  lemma StoreBehind(m: Machine, b: Byte)
    requires Good(m) && |m.procs| == 1 && |m.procs[0].syms| == MAX_SYMS && m.procs[0].syms[1] == Region(4096, 4196)
    requires m.ram.free != []
    ensures WellFormed(At(m, 0)) && Target(m.procs[0], 1, WORD64 - 1) == Some(4095)
    ensures Write(At(m, 0), 1, WORD64 - 1, b).value.Some?
    ensures Peek(With(m, 0, Write(At(m, 0), 1, WORD64 - 1, b).view), 0, 4095) == Some(b)
  {
    assert WellFormed(At(m, 0));
    FaultSucceeds(m, 0, Pgn(4095));
    WriteKeeps(m, 0, 1, WORD64 - 1, b);
    hide Fault, Peek, Inv;
  }

  /** free_pcb_memph looks at 512 of 16384 pages: after allocations of 128 KiB and one byte it does
      not return the frame of page 512. */
  lemma PageBeyondTheScan(ram: seq<seq<Byte>>, swap: seq<seq<Byte>>)
    requires Devices(ram, swap)
    ensures Good(Boot(ram, swap)) && Runnable(Boot(ram, swap), [OpSpawn, OpAlloc(0, 0, 0x2_0000)] + [OpAlloc(0, 1, 1)])
    ensures var m := Final(Boot(ram, swap), [OpSpawn, OpAlloc(0, 0, 0x2_0000)] + [OpAlloc(0, 1, 1)]);
            |m.procs| == 1 && |m.procs[0].pages| == MAX_PGN && !AllReturned(m, 0, FreeAll(At(m, 0)))
  {
    Begin(ram, swap, 0x2_0000);
    var m0 := Boot(ram, swap);
    var m2 := Final(m0, [OpSpawn, OpAlloc(0, 0, 0x2_0000)]);
    Continue(m2, 0x2_0000, 1);
    OneMoreCall(m0, [OpSpawn, OpAlloc(0, 0, 0x2_0000)], OpAlloc(0, 1, 1));
    hide Runnable, Final, Exec;
    var m := Exec(m2, OpAlloc(0, 1, 1)).0;
    assert m.procs[0].pages[512] != Absent;
    FreeAllReturnsAll(m, 0);
  }

  /** A store into the resident page 0 of the only process. */
  lemma StoreInPageZero(m: Machine, offset: nat, b: Byte)
    requires Good(m) && |m.procs| == 1 && |m.procs[0].syms| == MAX_SYMS && |m.procs[0].pages| == MAX_PGN
    requires m.procs[0].syms[0] == Region(0, 3) && m.procs[0].pages[0].Resident? && offset < 3
    ensures var w := Write(At(m, 0), 0, offset, b); var m' := With(m, 0, w.view);
            && w.value.Some? && Good(m') && m'.procs == m.procs
            && Peek(m', 0, offset) == Some(b)
            && forall x: nat :: x < 3 && x != offset ==> Peek(m', 0, x) == Peek(m, 0, x) && Peek(m, 0, x).Some?
  {
    assert Target(m.procs[0], 0, offset) == Some(offset);
    assert Pgn(offset) == 0 && forall x: nat :: x < 3 ==> Pgn(x) == 0 && Offset(x) == x;
    GoodMeansWellFormed(m, 0);
    assert EntryOk(At(m, 0), m.procs[0].pages[0]);
    var f := m.procs[0].pages[0].fpn;
    assert Fault(At(m, 0), 0) == Reply(At(m, 0), Some(f));
    assert |m.ram.frames[f]| == PAGE_SIZE;
    hide WellFormed, Inv, Fault, Target, EntryOk;
    WriteKeeps(m, 0, 0, offset, b);
    StepKeepsGood(m, OpWrite(0, 0, offset, b));
  }

  lemma LoadFromPageZero(m: Machine, offset: nat)
    requires Good(m) && |m.procs| == 1 && |m.procs[0].syms| == MAX_SYMS && |m.procs[0].pages| == MAX_PGN
    requires m.procs[0].syms[0] == Region(0, 3) && m.procs[0].pages[0].Resident? && offset < 3
    ensures WellFormed(At(m, 0)) && Read(At(m, 0), 0, offset) == Reply(At(m, 0), Peek(m, 0, offset))
    ensures Peek(m, 0, offset).Some?
  {
    assert Target(m.procs[0], 0, offset) == Some(offset);
    assert Pgn(offset) == 0;
    assert WellFormed(At(m, 0)) && EntryOk(At(m, 0), m.procs[0].pages[0]);
  }

  /** A state with the bytes 1, 2 at the start of a region of three bytes. */
  ghost predicate OneTwo(m: Machine) {
    && Good(m) && |m.procs| == 1 && |m.procs[0].syms| == MAX_SYMS && |m.procs[0].pages| == MAX_PGN
    && m.procs[0].syms[0] == Region(0, 3) && m.procs[0].pages[0].Resident?
    && Peek(m, 0, 0) == Some(1) && Peek(m, 0, 1) == Some(2)
  }

  lemma StoreOneTwo(m: Machine)
    requires Began(m, 3)
    ensures var m1 := Exec(m, OpWrite(0, 0, 0, 1)).0; Good(m1) && OneTwo(Exec(m1, OpWrite(0, 0, 1, 2)).0)
  {
    hide Inv, Write, Peek;
    assert AlignedSize(3) / GROW_UNIT == 1;
    StoreInPageZero(m, 0, 1);
    var m1 := Exec(m, OpWrite(0, 0, 0, 1)).0;
    StoreInPageZero(m1, 1, 2);
  }

  /** libkmem_copy_to_user within one region: of the bytes 1, 2 two are copied one place further on,
      and arrive as 1, 1. */
  lemma CopyGoesWrong(ram: seq<seq<Byte>>, swap: seq<seq<Byte>>)
    requires Devices(ram, swap)
    ensures Good(Boot(ram, swap))
    ensures Runnable(Boot(ram, swap), [OpSpawn, OpAlloc(0, 0, 3)] + [OpWrite(0, 0, 0, 1)] + [OpWrite(0, 0, 1, 2)])
    ensures var ops := [OpSpawn, OpAlloc(0, 0, 3)] + [OpWrite(0, 0, 0, 1)] + [OpWrite(0, 0, 1, 2)];
            var m := Final(Boot(ram, swap), ops);
            && OneTwo(m) && Live(m.procs[0], 0) && WellFormed(At(m, 0))
            && var r := CopyToUser(At(m, 0), 0, 0, 1, 2);
               r.value.Some? && !AllArrived(m, With(m, 0, r.view), PlanOf(m, 0, 0, 0, 0, 1, 2), 0)
  {
    hide Runnable, Final, Exec, Write, WellFormed, Copy, OneTwo;
    Begin(ram, swap, 3);
    var m0 := Boot(ram, swap);
    var ops := [OpSpawn, OpAlloc(0, 0, 3)];
    StoreOneTwo(Final(m0, ops));
    OneMoreCall(m0, ops, OpWrite(0, 0, 0, 1));
    OneMoreCall(m0, ops + [OpWrite(0, 0, 0, 1)], OpWrite(0, 0, 1, 2));
    CopySmearsTwoBytes(Final(m0, ops + [OpWrite(0, 0, 0, 1)] + [OpWrite(0, 0, 1, 2)]));
  }

  lemma CopySmearsTwoBytes(m: Machine)
    requires OneTwo(m)
    ensures Live(m.procs[0], 0) && WellFormed(At(m, 0))
    ensures var r := CopyToUser(At(m, 0), 0, 0, 1, 2);
            r.value.Some? && !AllArrived(m, With(m, 0, r.view), PlanOf(m, 0, 0, 0, 0, 1, 2), 0)
  {
    hide Good, Inv, WellFormed, Peek, Copy, CopyToUser, Read;
    LoadFromPageZero(m, 0);
    LoadFromPageZero(m, 1);
    CopyTwoBytes(m);
    GoodIsReady(m, 0, 0, 0, 0, 1, 2);
    var c := PlanOf(m, 0, 0, 0, 0, 1, 2);
    hide Ready, OneTwo;
    assert c.s0 == 0 && c.size == 2 && c.dbase == 1;
    ToUserWithinRegionExact(m, c);
    assert !Repeats(m, c, 1);
  }

  /** On a resident page the copy itself succeeds. */
  lemma CopyTwoBytes(m: Machine)
    requires Good(m) && |m.procs| == 1 && |m.procs[0].syms| == MAX_SYMS && |m.procs[0].pages| == MAX_PGN
    requires m.procs[0].syms[0] == Region(0, 3) && m.procs[0].pages[0].Resident?
    ensures WellFormed(At(m, 0)) && CopyToUser(At(m, 0), 0, 0, 1, 2).value.Some?
  {
    LoadFromPageZero(m, 0);
    var b0 := Peek(m, 0, 0).value;
    StoreInPageZero(m, 1, b0);
    var m1 := With(m, 0, Write(At(m, 0), 0, 1, b0).view);
    LoadFromPageZero(m1, 1);
    var b1 := Peek(m1, 0, 1).value;
    StoreInPageZero(m1, 2, b1);
    var m2 := With(m1, 0, Write(At(m1, 0), 0, 2, b1).view);
    hide Read, Write, Peek, WellFormed, Good;
    LoadFromPageZero(m2, 1);
    assert Copy(At(m2, 0), 0, 0, 0, 1, 2, 2).value.Some?;
    assert Copy(At(m1, 0), 0, 0, 0, 1, 2, 1) == Copy(At(m2, 0), 0, 0, 0, 1, 2, 2);
  }

  /** addr_t is unsigned, so running out of frames is no failure: on two frames an allocation of
      12288 bytes succeeds, and not one page of the process is mapped. */
  lemma BreakMovesUnmapped(ram: seq<seq<Byte>>, swap: seq<seq<Byte>>)
    requires |ram| == 2 && |swap| <= SWPOFF_SPAN
    requires forall f :: 0 <= f < |ram| ==> |ram[f]| == PAGE_SIZE
    requires forall s :: 0 <= s < |swap| ==> |swap[s]| == PAGE_SIZE
    ensures Good(Boot(ram, swap)) && Runnable(Boot(ram, swap), [OpSpawn])
    ensures var v := At(Final(Boot(ram, swap), [OpSpawn]), 0); var r := Alloc(v, 0, 12288);
            && r.value == Some(0) && r.view.mm.brk == 12288 && r.view.mm.syms[0] == Region(0, 12288)
            && |r.view.mm.pages| == MAX_PGN && forall g :: 0 <= g < MAX_PGN ==> r.view.mm.pages[g] == Absent
  {
    BootGood(ram, swap);
    StepKeepsGood(Boot(ram, swap), OpSpawn);
    assert Final(Boot(ram, swap), [OpSpawn]) == Exec(Boot(ram, swap), OpSpawn).0;
    NothingMapped(Exec(Boot(ram, swap), OpSpawn).0);
  }

  lemma NothingMapped(m: Machine)
    requires Good(m) && m.procs == [FreshMm()] && |m.ram.free| == 2
    ensures WellFormed(At(m, 0)) && Growth(At(m, 0), 0, 12288) == 12288
    ensures var r := Alloc(At(m, 0), 0, 12288);
            && r.value == Some(0) && r.view.mm.brk == 12288 && |r.view.mm.syms| == MAX_SYMS
            && r.view.mm.syms[0] == Region(0, 12288)
            && |r.view.mm.pages| == MAX_PGN && forall g :: 0 <= g < MAX_PGN ==> r.view.mm.pages[g] == Absent
  {
    GoodMeansWellFormed(m, 0);
    AlignedSizeRounds(12288);
    assert Int32(12288) == 12288 && AlignedSize(12288) == 12288;
    hide Good, WellFormed, Alloc, Growth;
    var v := At(m, 0);
    assert v.mm == FreshMm() && v.mm.spare == [Region(0, 0)] && v.mm.brk == 0;
    assert FirstFit(v.mm.spare, Int32(12288)) == |v.mm.spare|;
    AllocGrows(v, 0, 12288);
  }

  /** `__alloc` on a live symbol: the byte at address 0 is lost. */
  lemma AllocationForgetsRegion(ram: seq<seq<Byte>>, swap: seq<seq<Byte>>)
    requires Devices(ram, swap)
    ensures Good(Boot(ram, swap)) && Runnable(Boot(ram, swap), [OpSpawn, OpAlloc(0, 0, 1)] + [OpAlloc(0, 0, 1)])
    ensures Lost(Final(Boot(ram, swap), [OpSpawn, OpAlloc(0, 0, 1)] + [OpAlloc(0, 0, 1)]), 0, 0)
  {
    Begin(ram, swap, 1);
    var m := Boot(ram, swap);
    var ops := [OpSpawn, OpAlloc(0, 0, 1)];
    BeginTiled(ram, swap);
    var m2 := Final(m, ops);
    assert m2.procs[0].spare[0] == Region(1, 4096);
    OneMoreCall(m, ops, OpAlloc(0, 0, 1));
    GoodMeansWellFormed(m2, 0);
    assert LosesRegion(m2, OpAlloc(0, 0, 1));
    hide Runnable, Final, Good, Exec, LosesRegion;
    StepLoses(m2, OpAlloc(0, 0, 1));
  }

  lemma BeginTiled(ram: seq<seq<Byte>>, swap: seq<seq<Byte>>)
    requires Devices(ram, swap) && Good(Boot(ram, swap)) && Runnable(Boot(ram, swap), [OpSpawn, OpAlloc(0, 0, 1)])
    ensures AllTiled(Final(Boot(ram, swap), [OpSpawn, OpAlloc(0, 0, 1)]))
  {
    var m := Boot(ram, swap);
    var m1 := Exec(m, OpSpawn).0;
    StepKeepsGood(m, OpSpawn);
    StepTiles(m, OpSpawn);
    assert m1.procs[0].syms[0] == Region(0, 0);
    StepKeepsGood(m1, OpAlloc(0, 0, 1));
    hide Good, Exec;
    StepTiles(m1, OpAlloc(0, 0, 1));
    assert [OpSpawn, OpAlloc(0, 0, 1)][1..] == [OpAlloc(0, 0, 1)] && [OpAlloc(0, 0, 1)][1..] == [];
  }

  /** One allocation of 4 MiB takes the break to the end of the bus, and the next page that
      vmap_page_range maps there replaces page 0. */
  lemma PageZeroIsReplaced(ram: seq<seq<Byte>>, swap: seq<seq<Byte>>)
    requires Devices(ram, swap) && 1024 < |ram|
    ensures Good(Boot(ram, swap)) && Runnable(Boot(ram, swap), [OpSpawn, OpAlloc(0, 0, BUS_SPAN)])
    ensures var m := Final(Boot(ram, swap), [OpSpawn, OpAlloc(0, 0, BUS_SPAN)]);
            && |m.procs| == 1 && m.procs[0].brk == BUS_SPAN && m.ram.free != [] && |m.procs[0].pages| == MAX_PGN
            && m.procs[0].pages[0].Resident?
            && var m1 := m.(ram := m.ram.(free := m.ram.free[1..]));
               var m' := With(m1, 0, MapAll(At(m1, 0), Pgn(BUS_SPAN), [m.ram.free[0]]));
               && Holds(m', 0, 0, m.ram.free[0]) && m.ram.free[0] != m.procs[0].pages[0].fpn
               && !exists q: nat, g: nat :: Holds(m', q, g, m.procs[0].pages[0].fpn)
  {
    SmallSize(BUS_SPAN);
    Begin(ram, swap, BUS_SPAN);
    hide Runnable, Final, Boot;
    ReplacePageZero(Final(Boot(ram, swap), [OpSpawn, OpAlloc(0, 0, BUS_SPAN)]));
  }

  lemma ReplacePageZero(m: Machine)
    requires Began(m, BUS_SPAN) && AlignedSize(BUS_SPAN) == BUS_SPAN && 1024 < |m.ram.frames|
    ensures m.ram.free != [] && m.procs[0].pages[0].Resident?
    ensures var m1 := m.(ram := m.ram.(free := m.ram.free[1..]));
            var m' := With(m1, 0, MapAll(At(m1, 0), Pgn(BUS_SPAN), [m.ram.free[0]]));
            && Holds(m', 0, 0, m.ram.free[0]) && m.ram.free[0] != m.procs[0].pages[0].fpn
            && !exists q: nat, g: nat :: Holds(m', q, g, m.procs[0].pages[0].fpn)
  {
    var f, f' := m.procs[0].pages[0].fpn, m.ram.free[0];
    assert Holds(m, 0, 0, f);
    TakeFrames(m, {}, 1);
    var m1 := m.(ram := m.ram.(free := m.ram.free[1..]));
    assert {} + Elements(m.ram.free[..1]) == {f'};
    assert Holds(m1, 0, 0, f);
    hide Inv, Good, MapAll;
    GrowthPastTheBusOverwrites(m1, 0, 0, f, f');
  }
}
