/** Every interleaving of library calls by any number of processes agrees with flat byte memory. */
module PagingRuns {
  import opened Options
  import opened Sequences
  import opened PteCodec
  import opened Paging
  import opened Ownership
  import opened Regions

  /** One library call, made by process `p`, or the loader's init_mm for a new process. */
  datatype Op =
    | OpSpawn
    | OpAlloc(p: nat, rg: int, size: nat)
    | OpFree(p: nat, rg: int)
    | OpRead(p: nat, rg: int, offset: nat)
    | OpWrite(p: nat, rg: int, offset: nat, data: Byte)

  /** What a call did to byte memory. */
  datatype Event = Quiet | Loaded(p: nat, a: nat, b: Byte) | Stored(p: nat, a: nat, b: Byte)

  ghost predicate Good(m: Machine) {
    Inv(m, {}) && forall p :: 0 <= p < |m.procs| ==> Disjoint(m.procs[p])
  }

  /** init_mm. */
  function FreshMm(): Mm {
    Mm(seq(MAX_PGN, _ => Absent), seq(MAX_SYMS, _ => Region(0, 0)), [Region(0, 0)], [], 0)
  }

  /** The break stays within the 22-bit bus, which the code itself does not check. */
  ghost predicate Fits(m: Machine, op: Op) {
    op.OpAlloc? && op.p < |m.procs| ==> m.procs[op.p].brk + Growth(At(m, op.p), op.rg, op.size) <= BUS_SPAN
  }

  ghost function Exec(m: Machine, op: Op): (Machine, Event)
    requires Inv(m, {}) && Fits(m, op)
  {
    match op
    case OpSpawn => (m.(procs := m.procs + [FreshMm()]), Quiet)
    case OpAlloc(p, rg, size) =>
      if p < |m.procs| then (With(m, p, Alloc(At(m, p), rg, size).view), Quiet) else (m, Quiet)
    case OpFree(p, rg) =>
      if p < |m.procs| then (With(m, p, Free(At(m, p), rg).view), Quiet) else (m, Quiet)
    case OpRead(p, rg, offset) =>
      if p < |m.procs| then
        var r := Read(At(m, p), rg, offset);
        (With(m, p, r.view),
         if r.value.Some? then Loaded(p, Target(m.procs[p], rg, offset).value, r.value.value) else Quiet)
      else (m, Quiet)
    case OpWrite(p, rg, offset, data) =>
      if p < |m.procs| then
        var r := Write(At(m, p), rg, offset, data);
        (With(m, p, r.view), if r.value.Some? then Stored(p, Target(m.procs[p], rg, offset).value, data) else Quiet)
      else (m, Quiet)
  }

  /** The byte at a virtual address, once its page has been mapped. */
  ghost function Peek(m: Machine, p: nat, a: nat): Option<Byte> {
    match Content(m, p, Pgn(a))
    case Some(page) => if Offset(a) < |page| then Some(page[Offset(a)]) else None
    case None => None
  }

  // ---- each call keeps the invariant --------------------------------------

  lemma SpawnKeeps(m: Machine)
    requires Good(m)
    ensures var m' := m.(procs := m.procs + [FreshMm()]); Good(m') && ContentKept(m, m')
  {
    var m' := m.(procs := m.procs + [FreshMm()]);
    var n := |m.procs|;
    assert forall p: nat, g: nat, f: nat :: Holds(m', p, g, f) <==> Holds(m, p, g, f);
    assert forall p: nat, g: nat, s: nat :: Parks(m', p, g, s) <==> Parks(m, p, g, s);
    forall p | 0 <= p < n + 1
      ensures WellFormed(At(m', p)) && BelowBreak(m'.procs[p])
    {
      if p < n { SameEntries(At(m, p), At(m', p)); }
    }
    forall f: nat | f < |m.ram.frames|
      ensures f in m'.ram.free || exists p: nat, g: nat :: Holds(m', p, g, f)
    {
      if f !in m.ram.free {
        var p: nat, g: nat :| Holds(m, p, g, f);
        assert Holds(m', p, g, f);
      }
    }
    forall a: nat
      ensures Cover(FreshMm(), a) == 0
    {
      NothingCovered(FreshMm().syms, a);
      NothingCovered(FreshMm().spare, a);
    }
  }

  lemma {:induction false} NothingCovered(s: seq<Region>, a: nat)
    requires forall i :: 0 <= i < |s| ==> s[i] == Region(0, 0)
    ensures Count(s, a) == 0
  {
    if s == [] {
    } else {
      NothingCovered(s[1..], a);
    }
  }

  lemma AllocKeeps(m: Machine, p: nat, rg: int, size: nat)
    requires Inv(m, {}) && p < |m.procs| && m.procs[p].brk + Growth(At(m, p), rg, size) <= BUS_SPAN
    ensures var m' := With(m, p, Alloc(At(m, p), rg, size).view);
            Inv(m', {}) && ContentKept(m, m') && OnlyProc(m, m', p)
  {
    var v := At(m, p);
    assert With(m, p, v) == m;
    if size != 0 && 0 <= rg < MAX_SYMS {
      var i := FirstFit(v.mm.spare, Int32(size));
      if i < |v.mm.spare| {
        var mm := Alloc(v, rg, size).view.mm;
        RegionsChange(m, {}, p, mm);
        assert With(m, p, Alloc(v, rg, size).view) == m.(procs := m.procs[p := mm]);
      } else if size <= AlignedSize(size) {
        GrowKeeps(m, p, rg, size);
      }
    }
  }

  lemma FreeKeeps(m: Machine, p: nat, rg: int)
    requires Inv(m, {}) && p < |m.procs|
    ensures var m' := With(m, p, Free(At(m, p), rg).view); Inv(m', {}) && ContentKept(m, m') && OnlyProc(m, m', p)
  {
    var mm := Free(At(m, p), rg).view.mm;
    RegionsChange(m, {}, p, mm);
    assert With(m, p, Free(At(m, p), rg).view) == m.(procs := m.procs[p := mm]);
  }

  lemma TargetInRange(m: Machine, p: nat, rg: int, offset: nat)
    requires Inv(m, {}) && p < |m.procs| && Target(m.procs[p], rg, offset).Some?
    ensures var a := Target(m.procs[p], rg, offset).value;
            a < m.procs[p].brk && a < BUS_SPAN && Pgn(a) * PAGE_SIZE < m.procs[p].brk
  {
    assert WellFormed(At(m, p));
    AddressSplit(Target(m.procs[p], rg, offset).value, 0);
  }

  lemma ReadKeeps(m: Machine, p: nat, rg: int, offset: nat)
    requires Inv(m, {}) && p < |m.procs|
    ensures var r := Read(At(m, p), rg, offset); var m' := With(m, p, r.view);
            && Inv(m', {}) && ContentKept(m, m') && OnlyProc(m, m', p) && SameArea(m.procs[p], m'.procs[p])
            && (r.value.Some? ==> Peek(m', p, Target(m.procs[p], rg, offset).value) == r.value)
  {
    assert With(m, p, At(m, p)) == m;
    if Target(m.procs[p], rg, offset).Some? {
      TargetInRange(m, p, rg, offset);
      FaultKeeps(m, p, Pgn(Target(m.procs[p], rg, offset).value));
    }
  }

  /** A store changes one byte of one page of one process. */
  lemma PokeKeeps(m: Machine, p: nat, g: nat, f: nat, o: nat, b: Byte)
    requires Inv(m, {}) && Holds(m, p, g, f) && o < PAGE_SIZE
    ensures var m' := With(m, p, Poke(At(m, p), f, o, b));
            && Inv(m', {}) && OnlyProc(m, m', p)
            && m'.procs == m.procs && m'.swap == m.swap && m'.ram.free == m.ram.free
            && Content(m', p, g) == Some(m.ram.frames[f][o := b])
            && (forall q: nat, h: nat :: !(q == p && h == g) ==> Content(m', q, h) == Content(m, q, h))
  {
    var m' := With(m, p, Poke(At(m, p), f, o, b));
    assert m'.procs == m.procs;
    assert forall q: nat, h: nat, x: nat :: Holds(m', q, h, x) <==> Holds(m, q, h, x);
    assert forall q: nat, h: nat, x: nat :: Parks(m', q, h, x) <==> Parks(m, q, h, x);
    forall q | 0 <= q < |m.procs|
      ensures WellFormed(At(m', q))
    {
      SameEntries(At(m, q), At(m', q));
    }
    forall x: nat | x < |m.ram.frames|
      ensures x in m'.ram.free || exists q: nat, h: nat :: Holds(m', q, h, x)
    {
      if x !in m.ram.free {
        var q: nat, h: nat :| Holds(m, q, h, x);
        assert Holds(m', q, h, x);
      }
    }
    forall q: nat, h: nat
      ensures Content(m', q, h) == if q == p && h == g then Some(m.ram.frames[f][o := b]) else Content(m, q, h)
    {
      if q < |m.procs| && h < |m.procs[q].pages| && m.procs[q].pages[h].Resident? {
        assert Holds(m, q, h, m.procs[q].pages[h].fpn);
      }
    }
  }

  /** Every byte other than (p, a) that was defined is the same. */
  ghost predicate OthersKept(m: Machine, m': Machine, p: nat, a: nat) {
    forall q: nat, x: nat :: x < BUS_SPAN && (q, x) != (p, a) && Peek(m, q, x).Some? ==> Peek(m', q, x) == Peek(m, q, x)
  }

  lemma OneByteChanged(m: Machine, m1: Machine, m': Machine, p: nat, a: nat, page: seq<Byte>, b: Byte)
    requires ContentKept(m, m1) && a < BUS_SPAN && |page| == PAGE_SIZE
    requires Content(m1, p, Pgn(a)) == Some(page) && Content(m', p, Pgn(a)) == Some(page[Offset(a) := b])
    requires forall q: nat, h: nat :: !(q == p && h == Pgn(a)) ==> Content(m', q, h) == Content(m1, q, h)
    ensures Peek(m', p, a) == Some(b) && OthersKept(m, m', p, a)
  {
    hide Content;
    forall q: nat, x: nat | x < BUS_SPAN && (q, x) != (p, a) && Peek(m, q, x).Some?
      ensures Peek(m', q, x) == Peek(m, q, x)
    {
      AddressSplit(x, a);
      ModIsSelf(x, BUS_SPAN);
      ModIsSelf(a, BUS_SPAN);
      assert Content(m, q, Pgn(x)).Some?;
    }
  }

  lemma WriteKeeps(m: Machine, p: nat, rg: int, offset: nat, b: Byte)
    requires Inv(m, {}) && p < |m.procs|
    ensures var r := Write(At(m, p), rg, offset, b); var m' := With(m, p, r.view);
            && Inv(m', {}) && OnlyProc(m, m', p) && SameArea(m.procs[p], m'.procs[p])
            && (r.value.None? ==> ContentKept(m, m'))
            && (r.value.Some? ==> var a := Target(m.procs[p], rg, offset).value;
                                  a < BUS_SPAN && Peek(m', p, a) == Some(b) && OthersKept(m, m', p, a))
  {
    assert With(m, p, At(m, p)) == m;
    if Target(m.procs[p], rg, offset).Some? {
      var a := Target(m.procs[p], rg, offset).value;
      TargetInRange(m, p, rg, offset);
      FaultKeeps(m, p, Pgn(a));
      var r := Fault(At(m, p), Pgn(a));
      if r.value.Some? {
        var m1 := With(m, p, r.view);
        var f := r.value.value;
        hide Fault;
        assert At(m1, p) == r.view;
        PokeKeeps(m1, p, Pgn(a), f, Offset(a), b);
        var m' := With(m1, p, Poke(r.view, f, Offset(a), b));
        assert m' == With(m, p, Write(At(m, p), rg, offset, b).view);
        OneByteChanged(m, m1, m', p, a, m1.ram.frames[f], b);
      }
    }
  }

  lemma GoodMeansWellFormed(m: Machine, p: nat)
    requires Good(m) && p < |m.procs|
    ensures WellFormed(At(m, p))
  {
  }

  lemma StepKeepsGood(m: Machine, op: Op)
    requires Good(m) && Fits(m, op)
    ensures Good(Exec(m, op).0)
  {
    hide Inv, Paging.Read, Paging.Write, Paging.Alloc, Paging.Free, Growth, Count;
    match op
    case OpSpawn => SpawnKeeps(m);
    case OpAlloc(p, rg, size) =>
      if p < |m.procs| {
        AllocKeeps(m, p, rg, size);
        GoodMeansWellFormed(m, p);
        AllocStaysDisjoint(At(m, p), rg, size);
      }
    case OpFree(p, rg) =>
      if p < |m.procs| {
        FreeKeeps(m, p, rg);
        GoodMeansWellFormed(m, p);
        FreeStays(At(m, p), rg);
      }
    case OpRead(p, rg, offset) => if p < |m.procs| { ReadKeeps(m, p, rg, offset); }
    case OpWrite(p, rg, offset, data) => if p < |m.procs| { WriteKeeps(m, p, rg, offset, data); }
  }

  /** A store through one live symbol changes no byte of another symbol's region as long as start
      plus offset does not wrap around; and when it does, the store lands outside its own. */
  lemma SymbolsAreIsolated(m: Machine, p: nat, rg: nat, offset: nat, b: Byte, k: nat)
    requires Good(m) && p < |m.procs| && rg < MAX_SYMS && k < MAX_SYMS && k != rg && offset < WORD64
    requires (assert WellFormed(At(m, p)); m.procs[p].syms[rg].lo < m.procs[p].syms[rg].hi)
    requires Write(At(m, p), rg, offset, b).value.Some?
    ensures var mm := m.procs[p]; var m' := With(m, p, Write(At(m, p), rg, offset, b).view);
            if offset < WORD64 - mm.syms[rg].lo then
              forall x: nat :: Contains(mm.syms[k], x) && Peek(m, p, x).Some? ==> Peek(m', p, x) == Peek(m, p, x)
            else !Contains(mm.syms[rg], Target(mm, rg, offset).value)
  {
    var mm := m.procs[p];
    assert WellFormed(At(m, p)) && Disjoint(mm);
    TargetInside(mm, rg, offset);
    WriteKeeps(m, p, rg, offset, b);
    hide Write, WellFormed, Peek, Disjoint, Good, Inv;
    forall x: nat | Contains(mm.syms[k], x) && offset < WORD64 - mm.syms[rg].lo
      ensures x < BUS_SPAN && x != Target(mm, rg, offset).value
    {
      SymbolBelowBus(m, p, k);
      DisjointMeans(mm, if rg < k then rg else k, if rg < k then k else rg, x);
    }
  }

  lemma SymbolBelowBus(m: Machine, p: nat, k: nat)
    requires Good(m) && p < |m.procs| && k < MAX_SYMS
    ensures k < |m.procs[p].syms| && m.procs[p].syms[k].hi <= BUS_SPAN
  {
    assert WellFormed(At(m, p));
  }

  /** Why a run keeps the break within the bus: at 4 MiB vmap_page_range starts over at page 0, so
      it replaces the entry of a live page, whose frame nobody names any more, and lists the page
      twice. */
  lemma GrowthPastTheBusOverwrites(m: Machine, p: nat, i: nat, f: nat, f': nat)
    requires Inv(m, {f'}) && Holds(m, p, 0, f) && m.procs[p].brk == BUS_SPAN
    requires i < |m.procs[p].fifo| && m.procs[p].fifo[i] == 0
    ensures var m' := With(m, p, MapAll(At(m, p), Pgn(m.procs[p].brk), [f']));
            && Holds(m', p, 0, f') && !Distinct(m'.procs[p].fifo)
            && f !in m'.ram.free && !exists q: nat, g: nat :: Holds(m', q, g, f)
  {
    var v := At(m, p);
    assert Pgn(BUS_SPAN) == 0;
    assert MapAll(v, 0, [f']) == Map(v, 0, f');
    var m' := With(m, p, Map(v, 0, f'));
    assert m'.procs[p].fifo[i] == m'.procs[p].fifo[|v.mm.fifo|];
    forall q: nat, g: nat | Holds(m', q, g, f)
      ensures false
    {
      assert q != p || g != 0 ==> Holds(m, q, g, f);
    }
  }

  // ---- the flat memory ----------------------------------------------------

  /** One byte per (process, virtual address) written so far. */
  type Flat = map<(nat, nat), Byte>

  function Update(flat: Flat, e: Event): Flat {
    match e
    case Stored(p, a, b) => flat[(p, a) := b]
    case _ => flat
  }

  predicate Honest(flat: Flat, e: Event) {
    e.Loaded? && (e.p, e.a) in flat ==> flat[(e.p, e.a)] == e.b
  }

  ghost predicate Agree(m: Machine, flat: Flat) {
    forall p: nat, a: nat :: (p, a) in flat ==> a < BUS_SPAN && Peek(m, p, a) == Some(flat[(p, a)])
  }

  lemma KeptAgrees(m: Machine, m': Machine, flat: Flat)
    requires Agree(m, flat) && ContentKept(m, m')
    ensures Agree(m', flat)
  {
    forall p: nat, a: nat | (p, a) in flat
      ensures Peek(m', p, a) == Some(flat[(p, a)])
    {
      assert Content(m, p, Pgn(a)).Some?;
    }
  }

  lemma StoreAgrees(m: Machine, m': Machine, flat: Flat, p: nat, a: nat, b: Byte)
    requires Agree(m, flat) && a < BUS_SPAN && Peek(m', p, a) == Some(b) && OthersKept(m, m', p, a)
    ensures Agree(m', flat[(p, a) := b])
  {
    hide Peek;
  }

  /** One call of any process, seen as one step of flat memory. */
  lemma StepRefinesFlat(m: Machine, op: Op, flat: Flat)
    requires Good(m) && Fits(m, op) && Agree(m, flat)
    ensures var (m', e) := Exec(m, op); Agree(m', Update(flat, e)) && Honest(flat, e)
  {
    var (m', e) := Exec(m, op);
    hide Inv, Paging.Read, Paging.Write, Paging.Alloc, Paging.Free;
    match op
    case OpSpawn =>
      SpawnKeeps(m);
      KeptAgrees(m, m', flat);
    case OpAlloc(p, rg, size) =>
      if p < |m.procs| {
        AllocKeeps(m, p, rg, size);
        KeptAgrees(m, m', flat);
      }
    case OpFree(p, rg) =>
      if p < |m.procs| {
        FreeKeeps(m, p, rg);
        KeptAgrees(m, m', flat);
      }
    case OpRead(p, rg, offset) =>
      if p < |m.procs| {
        ReadKeeps(m, p, rg, offset);
        KeptAgrees(m, m', flat);
      }
    case OpWrite(p, rg, offset, data) =>
      if p < |m.procs| {
        WriteKeeps(m, p, rg, offset, data);
        hide Agree, Peek, OthersKept, ContentKept;
        if e == Quiet { KeptAgrees(m, m', flat); } else { StoreAgrees(m, m', flat, e.p, e.a, e.b); }
      }
  }

  // ---- whole runs ---------------------------------------------------------

  ghost predicate Runnable(m: Machine, ops: seq<Op>)
    requires Good(m)
    decreases |ops|
  {
    ops == [] || (Fits(m, ops[0]) && (StepKeepsGood(m, ops[0]); Runnable(Exec(m, ops[0]).0, ops[1..])))
  }

  ghost function Final(m: Machine, ops: seq<Op>): (m': Machine)
    requires Good(m) && Runnable(m, ops)
    ensures Good(m')
    decreases |ops|
  {
    if ops == [] then m else
      StepKeepsGood(m, ops[0]);
      Final(Exec(m, ops[0]).0, ops[1..])
  }

  ghost function Trace(m: Machine, ops: seq<Op>): (t: seq<Event>)
    requires Good(m) && Runnable(m, ops)
    ensures |t| == |ops|
    decreases |ops|
  {
    if ops == [] then [] else
      StepKeepsGood(m, ops[0]);
      [Exec(m, ops[0]).1] + Trace(Exec(m, ops[0]).0, ops[1..])
  }

  lemma RunStep(m: Machine, op: Op, rest: seq<Op>)
    requires Good(m) && Fits(m, op) && Good(Exec(m, op).0) && Runnable(Exec(m, op).0, rest)
    ensures Runnable(m, [op] + rest) && Final(m, [op] + rest) == Final(Exec(m, op).0, rest)
    ensures Trace(m, [op] + rest) == [Exec(m, op).1] + Trace(Exec(m, op).0, rest)
  {
    hide Exec, Good, Fits;
    assert ([op] + rest)[1..] == rest;
  }

  lemma {:induction false} OneMoreCall(m: Machine, ops: seq<Op>, op: Op)
    requires Good(m) && Runnable(m, ops) && Fits(Final(m, ops), op)
    ensures Runnable(m, ops + [op]) && Final(m, ops + [op]) == Exec(Final(m, ops), op).0
    decreases |ops|
  {
    if ops == [] {
      StepKeepsGood(m, op);
      assert [op][1..] == [];
    } else {
      StepKeepsGood(m, ops[0]);
      OneMoreCall(Exec(m, ops[0]).0, ops[1..], op);
      assert (ops + [op])[1..] == ops[1..] + [op];
    }
  }

  /** A history of byte events in which every load of a written byte returns flat memory's byte. */
  predicate AllHonest(flat: Flat, t: seq<Event>)
    decreases |t|
  {
    t == [] || (Honest(flat, t[0]) && AllHonest(Update(flat, t[0]), t[1..]))
  }

  /** The paged machine refines flat memory over any run of any processes. */
  lemma {:induction false} RunRefinesFlat(m: Machine, ops: seq<Op>, flat: Flat)
    requires Good(m) && Runnable(m, ops) && Agree(m, flat)
    ensures AllHonest(flat, Trace(m, ops))
    decreases |ops|
  {
    if ops == [] {
    } else {
      var (m1, e) := Exec(m, ops[0]);
      StepKeepsGood(m, ops[0]);
      StepRefinesFlat(m, ops[0], flat);
      RunRefinesFlat(m1, ops[1..], Update(flat, e));
      assert Trace(m, ops)[1..] == Trace(m1, ops[1..]);
    }
  }

  /** Event k does not write the byte at (p, a). */
  predicate Spares(e: Event, p: nat, a: nat) {
    !(e.Stored? && e.p == p && e.a == a)
  }

  lemma {:induction false} UnwrittenStays(flat: Flat, t: seq<Event>, j: nat)
    requires AllHonest(flat, t) && j < |t| && t[j].Loaded? && (t[j].p, t[j].a) in flat
    requires forall k :: 0 <= k < j ==> Spares(t[k], t[j].p, t[j].a)
    ensures t[j].b == flat[(t[j].p, t[j].a)]
    decreases |t|
  {
    if j == 0 {
    } else {
      assert Spares(t[0], t[j].p, t[j].a);
      assert forall k :: 0 <= k < j - 1 ==> t[1..][k] == t[k + 1];
      UnwrittenStays(Update(flat, t[0]), t[1..], j - 1);
    }
  }

  lemma {:induction false} LastWriteWins(flat: Flat, t: seq<Event>, i: nat, j: nat)
    requires AllHonest(flat, t) && i < j < |t| && t[i].Stored? && t[j].Loaded? && (t[i].p, t[i].a) == (t[j].p, t[j].a)
    requires forall k :: i < k < j ==> Spares(t[k], t[j].p, t[j].a)
    ensures t[j].b == t[i].b
    decreases |t|
  {
    assert forall k :: 0 <= k < j - 1 ==> t[1..][k] == t[k + 1];
    if i == 0 {
      UnwrittenStays(Update(flat, t[0]), t[1..], j - 1);
    } else {
      LastWriteWins(Update(flat, t[0]), t[1..], i - 1, j - 1);
    }
  }

  /** A successful read returns the last byte successfully written at that process and address,
      through any number of evictions and reloads in between. */
  lemma ReadReturnsLastWrite(m: Machine, ops: seq<Op>, i: nat, j: nat)
    requires Good(m) && Runnable(m, ops) && i < j < |ops|
    requires var t := Trace(m, ops);
             && t[i].Stored? && t[j].Loaded? && (t[i].p, t[i].a) == (t[j].p, t[j].a)
             && forall k :: i < k < j ==> Spares(t[k], t[j].p, t[j].a)
    ensures Trace(m, ops)[j].b == Trace(m, ops)[i].b
  {
    RunRefinesFlat(m, ops, map[]);
    LastWriteWins(map[], Trace(m, ops), i, j);
  }

  /** Freshly formatted devices and no process: the state every run of the simulator starts in. */
  ghost function Boot(ram: seq<seq<Byte>>, swap: seq<seq<Byte>>): Machine {
    Machine(Device(ram, seq(|ram|, i => i)), Device(swap, seq(|swap|, i => i)), [])
  }

  lemma BootGood(ram: seq<seq<Byte>>, swap: seq<seq<Byte>>)
    requires |ram| <= FPN_SPAN && |swap| <= SWPOFF_SPAN
    requires forall f :: 0 <= f < |ram| ==> |ram[f]| == PAGE_SIZE
    requires forall s :: 0 <= s < |swap| ==> |swap[s]| == PAGE_SIZE
    ensures Good(Boot(ram, swap)) && Agree(Boot(ram, swap), map[])
  {
    var m := Boot(ram, swap);
    forall f: nat | f < |ram|
      ensures f in m.ram.free
    {
      assert m.ram.free[f] == f;
    }
  }

  /** In every reachable state a RAM frame is on the free list exactly once or named by exactly
      one page-table entry of exactly one process, never both and never neither. */
  lemma EveryFrameHasOneOwner(ram: seq<seq<Byte>>, swap: seq<seq<Byte>>, ops: seq<Op>, f: nat)
    requires Good(Boot(ram, swap)) && Runnable(Boot(ram, swap), ops) && f < |Final(Boot(ram, swap), ops).ram.frames|
    ensures var m := Final(Boot(ram, swap), ops);
            && multiset(m.ram.free)[f] == (if exists p: nat, g: nat :: Holds(m, p, g, f) then 0 else 1)
            && (forall p: nat, g: nat, q: nat, h: nat :: Holds(m, p, g, f) && Holds(m, q, h, f) ==> p == q && g == h)
  {
    var m := Final(Boot(ram, swap), ops);
    Occurrences(m.ram.free, f);
  }

  /** In every reachable state a swapped page has a slot to itself, off the free list. */
  lemma EverySwappedPageHasASlot(ram: seq<seq<Byte>>, swap: seq<seq<Byte>>, ops: seq<Op>, p: nat, g: nat, s: nat)
    requires Good(Boot(ram, swap)) && Runnable(Boot(ram, swap), ops) && Parks(Final(Boot(ram, swap), ops), p, g, s)
    ensures var m := Final(Boot(ram, swap), ops);
            && s < |m.swap.frames| && multiset(m.swap.free)[s] == 0
            && (forall q: nat, h: nat :: Parks(m, q, h, s) ==> q == p && h == g)
  {
    var m := Final(Boot(ram, swap), ops);
    Occurrences(m.swap.free, s);
  }

  /** In every reachable state every mapped page starts below the break of its process, and the
      regions of a process share no byte. */
  lemma EveryRegionIsSeparate(ram: seq<seq<Byte>>, swap: seq<seq<Byte>>, ops: seq<Op>, p: nat, i: nat, j: nat, a: nat)
    requires Good(Boot(ram, swap)) && Runnable(Boot(ram, swap), ops) && p < |Final(Boot(ram, swap), ops).procs|
    requires var mm := Final(Boot(ram, swap), ops).procs[p]; i < j < |mm.syms + mm.spare|
    ensures var mm := Final(Boot(ram, swap), ops).procs[p]; var rs := mm.syms + mm.spare;
            && !(Contains(rs[i], a) && Contains(rs[j], a)) && (Contains(rs[i], a) || Contains(rs[j], a) ==> a < mm.brk)
            && BelowBreak(mm) && Distinct(mm.fifo)
  {
    var mm := Final(Boot(ram, swap), ops).procs[p];
    DisjointMeans(mm, i, j, a);
  }
}
