/** Who owns which RAM frame and which swap slot, over all processes at once. */
module Ownership {
  import opened Options
  import opened Sequences
  import opened PteCodec
  import opened Paging

  /** One RAM device, one active swap device, and every process created so far. */
  datatype Machine = Machine(ram: Device, swap: Device, procs: seq<Mm>)

  function At(m: Machine, p: nat): View
    requires p < |m.procs|
  {
    View(m.procs[p], m.ram, m.swap)
  }

  function With(m: Machine, p: nat, v: View): Machine
    requires p < |m.procs|
  {
    Machine(v.ram, v.swap, m.procs[p := v.mm])
  }

  ghost predicate Holds(m: Machine, p: nat, g: nat, f: nat) {
    p < |m.procs| && g < |m.procs[p].pages| && m.procs[p].pages[g] == Resident(f)
  }

  ghost predicate Parks(m: Machine, p: nat, g: nat, s: nat) {
    p < |m.procs| && g < |m.procs[p].pages| && m.procs[p].pages[g] == Swapped(s)
  }

  /** Each RAM frame is free once, or in hand (`loose`), or named by exactly one entry. */
  ghost predicate FramesOwned(m: Machine, loose: set<nat>) {
    && (forall p: nat, g: nat, f: nat :: Holds(m, p, g, f) ==> f < |m.ram.frames| && f !in m.ram.free && f !in loose)
    && (forall p: nat, g: nat, q: nat, h: nat, f: nat :: Holds(m, p, g, f) && Holds(m, q, h, f) ==> p == q && g == h)
    && (forall f: nat :: f in loose ==> f < |m.ram.frames| && f !in m.ram.free)
    && (forall f: nat :: f < |m.ram.frames| ==>
          f in m.ram.free || f in loose || exists p: nat, g: nat :: Holds(m, p, g, f))
  }

  /** Each swapped entry names a slot of its own that is not free. */
  ghost predicate SlotsOwned(m: Machine) {
    && (forall p: nat, g: nat, s: nat :: Parks(m, p, g, s) ==> s < |m.swap.frames| && s !in m.swap.free)
    && (forall p: nat, g: nat, q: nat, h: nat, s: nat :: Parks(m, p, g, s) && Parks(m, q, h, s) ==> p == q && g == h)
  }

  ghost predicate ProcsOk(m: Machine) {
    forall p :: 0 <= p < |m.procs| ==> WellFormed(At(m, p)) && BelowBreak(m.procs[p])
  }

  /** What every step keeps; `loose` is empty between steps. */
  ghost predicate Inv(m: Machine, loose: set<nat>) {
    && |m.ram.frames| <= FPN_SPAN && |m.swap.frames| <= SWPOFF_SPAN
    && DeviceOk(m.ram) && DeviceOk(m.swap)
    && ProcsOk(m) && FramesOwned(m, loose) && SlotsOwned(m)
  }

  /** The 256 bytes of a page that has ever been mapped, wherever they are. */
  ghost function Content(m: Machine, p: nat, g: nat): Option<seq<Byte>> {
    if p < |m.procs| && g < |m.procs[p].pages| then
      match m.procs[p].pages[g]
      case Resident(f) => if f < |m.ram.frames| then Some(m.ram.frames[f]) else None
      case Swapped(s) => if s < |m.swap.frames| then Some(m.swap.frames[s]) else None
      case Absent => None
    else None
  }

  ghost predicate ContentKept(m: Machine, m': Machine) {
    forall p: nat, g: nat :: Content(m, p, g).Some? ==> Content(m', p, g) == Content(m, p, g)
  }

  /** Entries, lists and sizes of every other process are the same. */
  ghost predicate OnlyProc(m: Machine, m': Machine, p: nat) {
    && |m'.procs| == |m.procs|
    && (forall q :: 0 <= q < |m.procs| && q != p ==> m'.procs[q] == m.procs[q])
    && |m'.ram.frames| == |m.ram.frames| && |m'.swap.frames| == |m.swap.frames|
  }

  /** MEMPHY_get_freefp, n times: the frames move from the list to the caller's hand. */
  lemma TakeFrames(m: Machine, loose: set<nat>, n: nat)
    requires Inv(m, loose) && n <= |m.ram.free|
    ensures var m' := m.(ram := m.ram.(free := m.ram.free[n..]));
            Inv(m', loose + Elements(m.ram.free[..n])) && ContentKept(m, m')
    ensures forall f: nat :: f in m.ram.free[..n] ==> f !in loose
  {
    var m' := m.(ram := m.ram.(free := m.ram.free[n..]));
    var loose' := loose + Elements(m.ram.free[..n]);
    Shorter(m.ram.free, n);
    forall p | 0 <= p < |m'.procs|
      ensures WellFormed(At(m', p))
    {
      SameEntries(At(m, p), At(m', p));
    }
    assert forall p: nat, g: nat, f: nat :: Holds(m', p, g, f) <==> Holds(m, p, g, f);
    assert forall p: nat, g: nat, s: nat :: Parks(m', p, g, s) <==> Parks(m, p, g, s);
    forall f: nat | f < |m.ram.frames|
      ensures f in m'.ram.free || f in loose' || exists p: nat, g: nat :: Holds(m', p, g, f)
    {
      if f !in m'.ram.free && f !in loose' {
        var p, g :| Holds(m, p, g, f);
        assert Holds(m', p, g, f);
      }
    }
  }

  /** A full swap device: the victim only leaves the list. */
  lemma EvictFails(m: Machine, loose: set<nat>, p: nat)
    requires Inv(m, loose) && p < |m.procs| && m.procs[p].fifo != [] && m.swap.free == []
    ensures var m' := With(m, p, Evict(At(m, p)).view); Inv(m', loose) && ContentKept(m, m')
  {
    var v := At(m, p);
    var v' := Evict(v).view;
    var m' := With(m, p, v');
    Reentered(v, v', 0, v.mm.pages[0]);
    assert forall q: nat :: q < |m.procs| ==> m'.procs[q].pages == m.procs[q].pages;
    SamePages(m, m', loose);
  }

  lemma SamePages(m: Machine, m': Machine, loose: set<nat>)
    requires FramesOwned(m, loose) && SlotsOwned(m)
    requires m'.ram == m.ram && m'.swap == m.swap && |m'.procs| == |m.procs|
    requires forall q: nat :: q < |m.procs| ==> m'.procs[q].pages == m.procs[q].pages
    ensures FramesOwned(m', loose) && SlotsOwned(m') && ContentKept(m, m')
  {
    assert forall q: nat, h: nat, x: nat :: Holds(m', q, h, x) <==> Holds(m, q, h, x);
    assert forall q: nat, h: nat, x: nat :: Parks(m', q, h, x) <==> Parks(m, q, h, x);
  }

  /** Moving a page out: its frame comes to hand, its bytes go to a free slot. */
  lemma EvictMoves(m: Machine, loose: set<nat>, p: nat)
    requires Inv(m, loose) && p < |m.procs| && m.procs[p].fifo != [] && m.swap.free != []
    ensures var r := Evict(At(m, p)); var m' := With(m, p, r.view);
            && r.value.Some? && r.value.value !in loose
            && Inv(m', loose + {r.value.value}) && ContentKept(m, m')
  {
    var v := At(m, p);
    var r := Evict(v);
    var m' := With(m, p, r.view);
    var k := |v.mm.fifo| - 1;
    var g := v.mm.fifo[k];
    assert EntryOk(v, v.mm.pages[g]);
    var f, s := v.mm.pages[g].fpn, m.swap.free[0];
    Shorter(m.swap.free, 1);
    Reentered(v, r.view, g, Swapped(s));
    hide FramesOwned, SlotsOwned, ContentKept;
    PageOut(m, m', loose, p, g, f, s);
    ProcsStay(m, m', p);
  }

  lemma PageOut(m: Machine, m': Machine, loose: set<nat>, p: nat, g: nat, f: nat, s: nat)
    requires FramesOwned(m, loose) && SlotsOwned(m) && Holds(m, p, g, f)
    requires s in m.swap.free && s !in m'.swap.free && s < |m.swap.frames|
    requires forall x :: x in m'.swap.free ==> x in m.swap.free
    requires OnlyProc(m, m', p) && m'.procs[p].pages == m.procs[p].pages[g := Swapped(s)]
    requires m'.ram == m.ram && m'.swap.frames == m.swap.frames[s := m.ram.frames[f]]
    ensures FramesOwned(m', loose + {f}) && SlotsOwned(m') && f !in loose && ContentKept(m, m')
  {
    assert forall q: nat, h: nat, x: nat :: Holds(m', q, h, x) <==> Holds(m, q, h, x) && !(q == p && h == g);
    assert forall q: nat, h: nat, x: nat :: Parks(m', q, h, x) <==> Parks(m, q, h, x) || (q == p && h == g && x == s);
    forall q: nat, h: nat | Content(m, q, h).Some?
      ensures Content(m', q, h) == Content(m, q, h)
    {
      if m.procs[q].pages[h].Swapped? {
        assert Parks(m, q, h, m.procs[q].pages[h].slot);
      }
    }
  }

  /** Mapping a frame in hand to a page that has none, swapping the page in if need be. */
  lemma LoadMapKeeps(m: Machine, loose: set<nat>, p: nat, g: nat, f: nat)
    requires Inv(m, loose) && p < |m.procs| && g < MAX_PGN && f in loose
    requires !m.procs[p].pages[g].Resident? && g * PAGE_SIZE < m.procs[p].brk
    requires EntryOk(At(m, p), m.procs[p].pages[g])
    ensures var m' := With(m, p, Map(Load(At(m, p), g, f), g, f));
            && Inv(m', loose - {f}) && ContentKept(m, m') && Content(m', p, g).Some?
  {
    var v := At(m, p);
    var v' := Map(Load(v, g, f), g, f);
    var m' := With(m, p, v');
    var n := |v.mm.fifo|;
    assert g !in v.mm.fifo;
    assert forall i :: 0 <= i < n ==> v'.mm.fifo[i] == v.mm.fifo[i];
    Reentered(v, v', g, Resident(f));
    hide FramesOwned, SlotsOwned, ContentKept;
    PageIn(m, m', loose, p, g, f);
    ProcsStay(m, m', p);
  }

  /** One process changed, in good order, and the devices kept their sizes. */
  lemma ProcsStay(m: Machine, m': Machine, p: nat)
    requires ProcsOk(m) && p < |m.procs| && OnlyProc(m, m', p) && DeviceOk(m'.ram) && DeviceOk(m'.swap)
    requires WellFormed(At(m', p)) && BelowBreak(m'.procs[p])
    ensures ProcsOk(m')
  {
    forall q | 0 <= q < |m.procs|
      ensures WellFormed(At(m', q)) && BelowBreak(m'.procs[q])
    {
      if q != p { SameEntries(At(m, q), At(m', q)); }
    }
  }

  lemma PageIn(m: Machine, m': Machine, loose: set<nat>, p: nat, g: nat, f: nat)
    requires FramesOwned(m, loose) && SlotsOwned(m) && f in loose
    requires p < |m.procs| && g < |m.procs[p].pages| && !m.procs[p].pages[g].Resident?
    requires OnlyProc(m, m', p) && m'.procs[p].pages == m.procs[p].pages[g := Resident(f)]
    requires m'.swap == m.swap && m'.ram.free == m.ram.free
    requires m'.ram.frames == match m.procs[p].pages[g]
                              case Swapped(s) =>
                                if s < |m.swap.frames| then m.ram.frames[f := m.swap.frames[s]] else m.ram.frames
                              case _ => m.ram.frames
    ensures FramesOwned(m', loose - {f}) && SlotsOwned(m') && ContentKept(m, m')
  {
    assert forall q: nat, h: nat, x: nat :: Holds(m', q, h, x) <==> Holds(m, q, h, x) || (q == p && h == g && x == f);
    assert forall q: nat, h: nat, x: nat :: Parks(m', q, h, x) <==> Parks(m, q, h, x) && !(q == p && h == g);
    forall x: nat | x < |m.ram.frames|
      ensures x in m'.ram.free || x in loose - {f} || exists q: nat, h: nat :: Holds(m', q, h, x)
    {
      if x == f {
        assert Holds(m', p, g, f);
      } else if x !in m.ram.free && x !in loose {
        var q: nat, h: nat :| Holds(m, q, h, x);
        assert Holds(m', q, h, x);
      }
    }
    forall q: nat, h: nat | Content(m, q, h).Some?
      ensures Content(m', q, h) == Content(m, q, h)
    {
      if m.procs[q].pages[h].Resident? {
        assert Holds(m, q, h, m.procs[q].pages[h].fpn);
      }
    }
  }

  ghost function Hand(f: Option<nat>): set<nat> {
    if f.Some? then {f.value} else {}
  }

  /** Everything about the area except its pages and its list. */
  ghost predicate SameArea(mm: Mm, mm': Mm) {
    mm'.syms == mm.syms && mm'.spare == mm.spare && mm'.brk == mm.brk
  }

  lemma ObtainKeeps(m: Machine, p: nat, g: nat)
    requires Inv(m, {}) && p < |m.procs| && g < MAX_PGN && !m.procs[p].pages[g].Resident?
    ensures var r := Obtain(At(m, p)); var m' := With(m, p, r.view);
            && Inv(m', Hand(r.value)) && ContentKept(m, m') && OnlyProc(m, m', p)
            && SameArea(m.procs[p], m'.procs[p]) && m'.procs[p].pages[g] == m.procs[p].pages[g]
  {
    var v := At(m, p);
    if v.ram.free != [] {
      TakeFrames(m, {}, 1);
      assert With(m, p, Obtain(v).view) == m.(ram := m.ram.(free := m.ram.free[1..]));
      assert {} + Elements(m.ram.free[..1]) == {m.ram.free[0]};
    } else if v.mm.fifo != [] && |v.mm.fifo| <= WALK_LIMIT {
      assert v.mm.fifo[|v.mm.fifo| - 1] != g;
      if v.swap.free == [] {
        EvictFails(m, {}, p);
      } else {
        EvictMoves(m, {}, p);
        assert {} + Hand(Obtain(v).value) == Hand(Obtain(v).value);
      }
    } else {
      assert With(m, p, v) == m;
    }
  }

  /** A page fault, whether or not it succeeds, changes no byte of any page of any process. */
  lemma FaultKeeps(m: Machine, p: nat, g: nat)
    requires Inv(m, {}) && p < |m.procs| && g < MAX_PGN && g * PAGE_SIZE < m.procs[p].brk
    ensures var r := Fault(At(m, p), g); var m' := With(m, p, r.view);
            && Inv(m', {}) && ContentKept(m, m') && OnlyProc(m, m', p) && SameArea(m.procs[p], m'.procs[p])
            && (r.value.Some? ==> Holds(m', p, g, r.value.value))
  {
    var v := At(m, p);
    if v.mm.pages[g].Resident? {
      assert With(m, p, v) == m;
    } else {
      ObtainReady(v);
      ObtainKeeps(m, p, g);
      var r := Obtain(v);
      if r.value.Some? {
        var m1 := With(m, p, r.view);
        var f := r.value.value;
        assert At(m1, p) == r.view;
        LoadMapKeeps(m1, {f}, p, g, f);
        assert {f} - {f} == {};
        assert With(m1, p, Map(Load(r.view, g, f), g, f)) == With(m, p, Fault(v, g).view);
      }
    }
  }

  lemma KeptTwice(m: Machine, m1: Machine, m': Machine)
    ensures ContentKept(m, m)
    ensures ContentKept(m, m1) && ContentKept(m1, m') ==> ContentKept(m, m')
  {
    hide Content;
  }

  lemma ElementsStep(loose: set<nat>, frames: seq<nat>)
    requires frames != []
    ensures loose - {frames[0]} - Elements(frames[1..]) == loose - Elements(frames)
  {
    assert forall f :: f in frames <==> f == frames[0] || f in frames[1..];
  }

  /** What the mapping loop needs at each turn. */
  ghost predicate Mappable(m: Machine, loose: set<nat>, p: nat, g: nat, frames: seq<nat>) {
    && Inv(m, loose) && p < |m.procs| && |m.procs[p].pages| == MAX_PGN && g + |frames| <= MAX_PGN
    && Distinct(frames) && (forall i :: 0 <= i < |frames| ==> frames[i] in loose)
    && (forall h :: g <= h < g + |frames| ==> m.procs[p].pages[h] == Absent && h * PAGE_SIZE < m.procs[p].brk)
  }

  lemma MapOneKeeps(m: Machine, loose: set<nat>, p: nat, g: nat, frames: seq<nat>)
    requires Mappable(m, loose, p, g, frames) && frames != []
    ensures var v1 := Map(At(m, p), g, frames[0]); var m1 := With(m, p, v1);
            && Mappable(m1, loose - {frames[0]}, p, g + 1, frames[1..]) && At(m1, p) == v1
            && ContentKept(m, m1) && OnlyProc(m, m1, p) && SameArea(m.procs[p], m1.procs[p])
  {
    assert EntryOk(At(m, p), Absent);
    hide Inv, ContentKept, EntryOk;
    LoadMapKeeps(m, loose, p, g, frames[0]);
  }

  lemma MapNoneKeeps(m: Machine, loose: set<nat>, p: nat)
    requires Inv(m, loose) && p < |m.procs|
    ensures With(m, p, At(m, p)) == m && loose - Elements([]) == loose && ContentKept(m, m)
  {
  }

  /** First one page, then the rest. */
  lemma MapRestKeeps(m: Machine, m1: Machine, v': View, loose: set<nat>, p: nat, frames: seq<nat>)
    requires p < |m.procs| && frames != []
    requires ContentKept(m, m1) && OnlyProc(m, m1, p) && SameArea(m.procs[p], m1.procs[p])
    requires Inv(With(m1, p, v'), loose - {frames[0]} - Elements(frames[1..]))
    requires ContentKept(m1, With(m1, p, v')) && OnlyProc(m1, With(m1, p, v'), p)
    requires SameArea(m1.procs[p], With(m1, p, v').procs[p])
    ensures var m' := With(m, p, v');
            && Inv(m', loose - Elements(frames)) && ContentKept(m, m') && OnlyProc(m, m', p)
            && SameArea(m.procs[p], m'.procs[p])
  {
    hide Inv, ContentKept;
    ElementsStep(loose, frames);
    KeptTwice(m, m1, With(m1, p, v'));
    assert With(m1, p, v') == With(m, p, v');
  }

  /** Mapping fresh pages g, g + 1, ... to frames in hand. */
  lemma {:induction false} MapAllKeeps(m: Machine, loose: set<nat>, p: nat, g: nat, frames: seq<nat>)
    requires Mappable(m, loose, p, g, frames)
    ensures var m' := With(m, p, MapAll(At(m, p), g, frames));
            && Inv(m', loose - Elements(frames)) && ContentKept(m, m') && OnlyProc(m, m', p)
            && SameArea(m.procs[p], m'.procs[p])
    decreases |frames|
  {
    if frames == [] {
      MapNoneKeeps(m, loose, p);
    } else {
      var v1 := Map(At(m, p), g, frames[0]);
      var m1 := With(m, p, v1);
      MapOneKeeps(m, loose, p, g, frames);
      hide Inv, ContentKept, OnlyProc, SameArea, With;
      MapAllKeeps(m1, loose - {frames[0]}, p, g + 1, frames[1..]);
      MapRestKeeps(m, m1, MapAll(v1, g + 1, frames[1..]), loose, p, frames);
    }
  }

  /** Nothing but regions and the break of one process changes, and the break does not fall. */
  lemma RegionsChange(m: Machine, loose: set<nat>, p: nat, mm: Mm)
    requires Inv(m, loose) && p < |m.procs|
    requires mm.pages == m.procs[p].pages && mm.fifo == m.procs[p].fifo
    requires m.procs[p].brk <= mm.brk <= BUS_SPAN && mm.brk % GROW_UNIT == 0
    requires |mm.syms| == MAX_SYMS && forall i :: 0 <= i < MAX_SYMS ==> mm.syms[i].hi <= mm.brk
    requires forall i :: 0 <= i < |mm.spare| ==> mm.spare[i].hi <= mm.brk
    ensures var m' := m.(procs := m.procs[p := mm]); Inv(m', loose) && ContentKept(m, m') && OnlyProc(m, m', p)
  {
    var m' := m.(procs := m.procs[p := mm]);
    SamePages(m, m', loose);
    forall g | 0 <= g < MAX_PGN
      ensures EntryOk(At(m', p), mm.pages[g])
    {
      assert EntryOk(At(m, p), mm.pages[g]);
    }
    ProcsStay(m, m', p);
  }

  /** A shortage puts the frames back, last taken first. */
  lemma FreeListReversed(m: Machine)
    requires Inv(m, {})
    ensures var m' := m.(ram := m.ram.(free := Reverse(m.ram.free))); Inv(m', {}) && ContentKept(m, m')
  {
    var m' := m.(ram := m.ram.(free := Reverse(m.ram.free)));
    ReverseKeepsElements(m.ram.free);
    assert forall p: nat, g: nat, f: nat :: Holds(m', p, g, f) <==> Holds(m, p, g, f);
    assert forall p: nat, g: nat, s: nat :: Parks(m', p, g, s) <==> Parks(m, p, g, s);
    forall q | 0 <= q < |m.procs|
      ensures WellFormed(At(m', q))
    {
      SameEntries(At(m, q), At(m', q));
    }
    forall f: nat | f < |m.ram.frames|
      ensures f in m'.ram.free || exists p: nat, g: nat :: Holds(m', p, g, f)
    {
      if f !in m.ram.free {
        var p: nat, g: nat :| Holds(m, p, g, f);
        assert Holds(m', p, g, f);
      }
    }
  }

  lemma TakeForGrowth(m: Machine, n: nat)
    requires Inv(m, {})
    ensures var (frames, free) := AllocPages(m.ram.free, n); var m' := m.(ram := m.ram.(free := free));
            && Inv(m', Elements(frames)) && ContentKept(m, m') && Distinct(frames) && |frames| <= n
  {
    if n <= |m.ram.free| {
      TakeFrames(m, {}, n);
      Shorter(m.ram.free, n);
      assert {} + Elements(m.ram.free[..n]) == Elements(m.ram.free[..n]);
    } else {
      FreeListReversed(m);
      assert Elements<nat>([]) == {};
    }
  }

  /** Break growth up to the mapping loop: the frames are in hand, the area is extended, and
      every page about to be mapped has never been mapped. */
  lemma GrowStart(m: Machine, p: nat, rg: nat, size: nat) returns (m2: Machine, frames: seq<nat>)
    requires Inv(m, {}) && p < |m.procs| && rg < MAX_SYMS && size <= AlignedSize(size)
    requires m.procs[p].brk + AlignedSize(size) <= BUS_SPAN
    ensures Inv(m2, Elements(frames)) && ContentKept(m, m2) && OnlyProc(m, m2, p)
    ensures m2.procs[p] == Extended(m.procs[p], rg, size)
    ensures var g := m.procs[p].brk / PAGE_SIZE;
            && g + |frames| <= MAX_PGN && |m2.procs[p].pages| == MAX_PGN && Distinct(frames)
            && (forall h :: g <= h < g + |frames| ==> m2.procs[p].pages[h] == Absent && h * PAGE_SIZE < m2.procs[p].brk)
            && Grow(At(m, p), rg, size) == MapAll(At(m2, p), g, frames)
  {
    var v := At(m, p);
    var n := AlignedSize(size) / GROW_UNIT;
    var (frms, free) := AllocPages(m.ram.free, n);
    frames := frms;
    TakeForGrowth(m, n);
    var m1 := m.(ram := m.ram.(free := free));
    var x := Extended(v.mm, rg, size);
    assert WellFormed(v);
    NothingBeyondBreak(v.mm, v.mm.brk / PAGE_SIZE, |frames|);
    RegionsChange(m1, Elements(frames), p, x);
    m2 := m1.(procs := m.procs[p := x]);
    assert At(m2, p) == View(x, m1.ram, m.swap);
  }

  /** Break growth: the pages it maps were never mapped before, so no entry is overwritten. */
  lemma GrowKeeps(m: Machine, p: nat, rg: nat, size: nat)
    requires Inv(m, {}) && p < |m.procs| && rg < MAX_SYMS && size <= AlignedSize(size)
    requires m.procs[p].brk + AlignedSize(size) <= BUS_SPAN
    ensures var m' := With(m, p, Grow(At(m, p), rg, size));
            && Inv(m', {}) && ContentKept(m, m') && OnlyProc(m, m', p)
            && SameArea(Extended(m.procs[p], rg, size), m'.procs[p])
  {
    var g := m.procs[p].brk / PAGE_SIZE;
    assert WellFormed(At(m, p));
    hide Inv, MapAll, Grow, WellFormed, ContentKept;
    var m2, frames := GrowStart(m, p, rg, size);
    MapAllKeeps(m2, Elements(frames), p, g, frames);
    assert Elements(frames) - Elements(frames) == {};
    var v' := MapAll(At(m2, p), g, frames);
    KeptTwice(m, m2, With(m2, p, v'));
    assert m2.procs[p := v'.mm] == m.procs[p := v'.mm];
  }
}
