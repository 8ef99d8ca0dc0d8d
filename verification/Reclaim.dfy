/** free_pcb_memph: handing back what a process holds (src/libmem.c). */
module Reclaim {
  import opened Sequences
  import opened PteCodec
  import opened Paging
  import opened Ownership

  const SCAN_PAGES: nat := 512          // PAGING64_MAX_PGN: 2^21 bytes in units of 4096

  /** The free lists after the scan of pages [0, n); page-table words are left as they are. */
  function Collect(v: View, n: nat): View
    requires n <= |v.mm.pages|
  {
    if n == 0 then v
    else
      var w := Collect(v, n - 1);
      match v.mm.pages[n - 1]
      case Resident(f) => w.(ram := w.ram.(free := [f] + w.ram.free))
      case Swapped(s) => w.(swap := w.swap.(free := [s] + w.swap.free))
      case Absent => w
  }

  function FreeAll(v: View): View
    requires SCAN_PAGES <= |v.mm.pages|
  {
    Collect(v, SCAN_PAGES)
  }

  /** The scan returns exactly the frames and slots its pages name, each once. */
  lemma {:induction false} CollectReturns(m: Machine, p: nat, n: nat)
    requires Inv(m, {}) && p < |m.procs| && n <= MAX_PGN
    ensures var v := Collect(At(m, p), n);
            && v.mm == m.procs[p] && v.ram.frames == m.ram.frames && v.swap.frames == m.swap.frames
            && Distinct(v.ram.free) && Distinct(v.swap.free)
            && (forall f: nat :: f in v.ram.free <==> f in m.ram.free || exists g: nat :: g < n && Holds(m, p, g, f))
            && (forall s: nat :: s in v.swap.free <==> s in m.swap.free || exists g: nat :: g < n && Parks(m, p, g, s))
  {
    if n == 0 {
    } else {
      CollectReturns(m, p, n - 1);
      var w := Collect(At(m, p), n - 1);
      var v := Collect(At(m, p), n);
      match m.procs[p].pages[n - 1]
      case Resident(f) =>
        assert Holds(m, p, n - 1, f);
        assert f !in w.ram.free;
      case Swapped(s) =>
        assert Parks(m, p, n - 1, s);
        assert s !in w.swap.free;
      case Absent =>
    }
  }

  /** The frames and slots that pages [0, n) name, in page order. */
  function FramesNamed(pages: seq<Entry>, n: nat): seq<nat>
    requires n <= |pages|
  {
    if n == 0 then [] else
      FramesNamed(pages, n - 1) + if pages[n - 1].Resident? then [pages[n - 1].fpn] else []
  }

  function SlotsNamed(pages: seq<Entry>, n: nat): seq<nat>
    requires n <= |pages|
  {
    if n == 0 then [] else
      SlotsNamed(pages, n - 1) + if pages[n - 1].Swapped? then [pages[n - 1].slot] else []
  }

  lemma {:induction false} ReverseLast<T>(s: seq<T>, x: T)
    ensures Reverse(s + [x]) == [x] + Reverse(s)
  {
    if s == [] {
      assert [] + [x] == [x] && [x][1..] == [];
    } else {
      assert (s + [x])[1..] == s[1..] + [x];
      ReverseLast(s[1..], x);
    }
  }

  /** They come back in reverse page order, in front of what was free. */
  lemma {:induction false} CollectInOrder(v: View, n: nat)
    requires n <= |v.mm.pages|
    ensures var w := Collect(v, n);
            && w.ram.free == Reverse(FramesNamed(v.mm.pages, n)) + v.ram.free
            && w.swap.free == Reverse(SlotsNamed(v.mm.pages, n)) + v.swap.free
            && w == v.(ram := v.ram.(free := w.ram.free), swap := v.swap.(free := w.swap.free))
  {
    hide FramesNamed, SlotsNamed, Reverse;
    if n == 0 {
      NoneNamed(v);
    } else {
      CollectInOrder(v, n - 1);
      OneMoreNamed(v.mm.pages, n);
    }
  }

  lemma NoneNamed(v: View)
    ensures Reverse(FramesNamed(v.mm.pages, 0)) + v.ram.free == v.ram.free
    ensures Reverse(SlotsNamed(v.mm.pages, 0)) + v.swap.free == v.swap.free
  {
  }

  lemma OneMoreNamed(pages: seq<Entry>, n: nat)
    requires 0 < n <= |pages|
    ensures Reverse(FramesNamed(pages, n))
         == (if pages[n - 1].Resident? then [pages[n - 1].fpn] else []) + Reverse(FramesNamed(pages, n - 1))
    ensures Reverse(SlotsNamed(pages, n))
         == (if pages[n - 1].Swapped? then [pages[n - 1].slot] else []) + Reverse(SlotsNamed(pages, n - 1))
  {
    var fs, ss := FramesNamed(pages, n - 1), SlotsNamed(pages, n - 1);
    hide Reverse;
    if pages[n - 1].Resident? { ReverseLast(fs, pages[n - 1].fpn); } else { assert fs + [] == fs; }
    if pages[n - 1].Swapped? { ReverseLast(ss, pages[n - 1].slot); } else { assert ss + [] == ss; }
  }

  ghost predicate AllReturned(m: Machine, p: nat, v: View) {
    && (forall g: nat, f: nat :: Holds(m, p, g, f) ==> f in v.ram.free)
    && (forall g: nat, s: nat :: Parks(m, p, g, s) ==> s in v.swap.free)
  }

  /** The scan covers 512 of the 16384 pages: everything the process holds comes back exactly
      when none of its mapped pages lies beyond. */
  lemma FreeAllReturnsAll(m: Machine, p: nat)
    requires Inv(m, {}) && p < |m.procs|
    ensures AllReturned(m, p, FreeAll(At(m, p)))
       <==> forall g :: 512 <= g < 0x4000 ==> m.procs[p].pages[g] == Absent
  {
    var v := FreeAll(At(m, p));
    CollectReturns(m, p, SCAN_PAGES);
    if AllReturned(m, p, v) {
      forall g | SCAN_PAGES <= g < MAX_PGN
        ensures m.procs[p].pages[g] == Absent
      {
        match m.procs[p].pages[g]
        case Resident(f) => assert Holds(m, p, g, f);
        case Swapped(s) => assert Parks(m, p, g, s);
        case Absent =>
      }
    }
  }
}
