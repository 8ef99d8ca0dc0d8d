/** The storage devices (src/mm-memphy.c) and the page copy between them (src/mm64.c). */
module MemPhyDevice {
  import opened Options
  import opened Sequences
  import opened PteCodec
  import opened Paging

  /** Flat storage cut into frames of 256 bytes; a partial frame at the end is unused. */
  function Paginate(s: seq<Byte>): (r: seq<seq<Byte>>)
    ensures |r| == |s| / PAGE_SIZE
    ensures forall f :: 0 <= f < |r| ==> r[f] == s[f * PAGE_SIZE..f * PAGE_SIZE + PAGE_SIZE]
  {
    seq(|s| / PAGE_SIZE, f requires 0 <= f < |s| / PAGE_SIZE => s[f * PAGE_SIZE..f * PAGE_SIZE + PAGE_SIZE])
  }

  /** Storing a byte changes its own frame only. */
  lemma PaginateByte(s: seq<Byte>, f: nat, o: nat, b: Byte)
    requires f < |s| / PAGE_SIZE && o < PAGE_SIZE
    ensures Paginate(s[f * PAGE_SIZE + o := b]) == Paginate(s)[f := Paginate(s)[f][o := b]]
  {
    var s' := s[f * PAGE_SIZE + o := b];
    forall h | 0 <= h < |s| / PAGE_SIZE
      ensures Paginate(s')[h] == Paginate(s)[f := Paginate(s)[f][o := b]][h]
    {
      if h < f {
        assert h * PAGE_SIZE + PAGE_SIZE <= f * PAGE_SIZE;
      } else if f < h {
        assert f * PAGE_SIZE + PAGE_SIZE <= h * PAGE_SIZE;
      }
    }
  }

  class MemPhy {
    const storage: array<Byte>
    var freeFp: seq<nat>

    ghost predicate Valid()
      reads this, storage
    {
      DeviceOk(Dev())
    }

    ghost function Dev(): Device
      reads this, storage
    {
      Device(Paginate(storage[..]), freeFp)
    }

    /** init_memphy in random-access mode.  With fewer than two frames MEMPHY_format leaves the
        list partly unset. */
    constructor (maxsz: nat)
      requires 2 <= maxsz / PAGE_SIZE
      ensures Valid() && fresh(storage) && storage.Length == maxsz
      ensures forall a :: 0 <= a < maxsz ==> storage[a] == 0
      ensures freeFp == seq(maxsz / PAGE_SIZE, i => i)
    {
      storage := new Byte[maxsz](_ => 0);
      freeFp := [];
      new;
      var _ := Format(PAGE_SIZE);
    }

    /** MEMPHY_format: frames 0, 1, 2, ... in this order; a device without a frame is refused.  With
        exactly one frame the code leaves the end of the list unset. */
    method Format(pagesz: nat) returns (ok: bool)
      requires pagesz == PAGE_SIZE && storage.Length / pagesz != 1
      modifies this`freeFp
      ensures ok == (PAGE_SIZE <= storage.Length)
      ensures freeFp == if ok then seq(storage.Length / PAGE_SIZE, i => i) else old(freeFp)
      ensures ok ==> Valid()
    {
      var numfp := storage.Length / pagesz;
      if numfp <= 0 {
        return false;
      }
      var list := [0];
      var iter := 1;
      while iter < numfp
        invariant 1 <= iter <= numfp && |list| == iter
        invariant forall i :: 0 <= i < iter ==> list[i] == i
      {
        list := list + [iter];
        iter := iter + 1;
      }
      freeFp := list;
      ok := true;
    }

    /** MEMPHY_get_freefp. */
    method GetFreeFp() returns (r: Option<nat>)
      requires Valid()
      modifies this`freeFp
      ensures Valid() && Dev().frames == old(Dev().frames)
      ensures old(freeFp) == [] ==> r == None && freeFp == []
      ensures old(freeFp) != [] ==> r == Some(old(freeFp)[0]) && freeFp == old(freeFp)[1..]
    {
      if freeFp == [] {
        return None;
      }
      Shorter(freeFp, 1);
      r := Some(freeFp[0]);
      freeFp := freeFp[1..];
    }

    /** MEMPHY_put_freefp. */
    method PutFreeFp(fpn: nat)
      modifies this`freeFp
      ensures Dev().frames == old(Dev().frames) && freeFp == [fpn] + old(freeFp)
    {
      freeFp := [fpn] + freeFp;
    }

    /** MEMPHY_read. */
    method Read(addr: nat) returns (b: Byte)
      requires addr < storage.Length / PAGE_SIZE * PAGE_SIZE
      ensures b == Dev().frames[addr / PAGE_SIZE][addr % PAGE_SIZE]
    {
      b := storage[addr];
    }

    /** MEMPHY_write. */
    method Write(addr: nat, b: Byte)
      requires addr < storage.Length / PAGE_SIZE * PAGE_SIZE
      modifies storage
      ensures var f := addr / PAGE_SIZE;
              Dev() == old(Dev()).(frames := old(Dev()).frames[f := old(Dev()).frames[f][addr % PAGE_SIZE := b]])
    {
      PaginateByte(storage[..], addr / PAGE_SIZE, addr % PAGE_SIZE, b);
      storage[addr] := b;
      assert storage[..] == old(storage[..])[addr := b];
    }
  }

  /** `page` copied over frame d up to byte k. */
  function Overlay(frames: seq<seq<Byte>>, d: nat, page: seq<Byte>, k: nat): (r: seq<seq<Byte>>)
    requires d < |frames| && k <= |page| == |frames[d]|
    ensures k == 0 ==> r == frames
    ensures k == |page| ==> r == frames[d := page]
  {
    assert page[..0] + frames[d][0..] == frames[d];
    assert page[..|page|] + frames[d][|page|..] == page;
    frames[d := page[..k] + frames[d][k..]]
  }

  lemma OverlayStep(frames: seq<seq<Byte>>, d: nat, page: seq<Byte>, k: nat)
    requires d < |frames| && k < |page| == |frames[d]|
    ensures var r := Overlay(frames, d, page, k);
            k < |r[d]| && r[d := r[d][k := page[k]]] == Overlay(frames, d, page, k + 1)
  {
    assert (page[..k] + frames[d][k..])[k := page[k]] == page[..k + 1] + frames[d][k + 1..];
  }

  /** __swap_cp_page: one whole page, byte by byte. */
  method SwapCpPage(mpsrc: MemPhy, srcfpn: nat, mpdst: MemPhy, dstfpn: nat)
    requires mpsrc != mpdst && mpsrc.storage != mpdst.storage
    requires srcfpn < mpsrc.storage.Length / PAGE_SIZE && dstfpn < mpdst.storage.Length / PAGE_SIZE
    modifies mpdst.storage
    ensures mpdst.Dev() == old(mpdst.Dev()).(frames := old(mpdst.Dev()).frames[dstfpn := mpsrc.Dev().frames[srcfpn]])
  {
    ghost var page := mpsrc.Dev().frames[srcfpn];
    ghost var before := mpdst.Dev();
    for cellidx := 0 to PAGE_SIZE
      invariant mpdst.Dev().free == before.free && |mpdst.Dev().frames| == |before.frames|
      invariant mpdst.Dev().frames == Overlay(before.frames, dstfpn, page, cellidx)
    {
      OverlayStep(before.frames, dstfpn, page, cellidx);
      var data := mpsrc.Read(srcfpn * PAGE_SIZE + cellidx);
      mpdst.Write(dstfpn * PAGE_SIZE + cellidx, data);
    }
  }
}
