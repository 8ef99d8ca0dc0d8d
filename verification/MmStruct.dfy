/** mm_struct with its page-table words, symbol table and lists (include/os-mm.h). */
module MmStructs {
  import opened Options
  import opened PteCodec
  import opened Paging

  function DecodeAll(words: seq<nat>): (r: seq<Entry>)
    ensures |r| == |words|
    ensures forall g :: 0 <= g < |words| ==> r[g] == Decode(words[g])
  {
    seq(|words|, g requires 0 <= g < |words| => Decode(words[g]))
  }

  class MmStruct {
    const pgd: array<nat>
    const symrgtbl: array<Region>
    var freergList: seq<Region>
    var fifoPgn: seq<nat>
    var vmEnd: nat
    var sbrk: nat

    ghost predicate Valid()
      reads this, pgd, symrgtbl
    {
      && pgd.Length == MAX_PGN && symrgtbl.Length == MAX_SYMS && vmEnd == sbrk
      && (forall g :: 0 <= g < MAX_PGN ==> pgd[g] < WORD32)
    }

    ghost function Abs(): Mm
      reads this, pgd, symrgtbl
    {
      Mm(DecodeAll(pgd[..]), symrgtbl[..], freergList, fifoPgn, sbrk)
    }

    /** init_mm. */
    constructor ()
      ensures Valid() && fresh(pgd) && fresh(symrgtbl)
      ensures Abs() == Mm(seq(MAX_PGN, _ => Absent), seq(MAX_SYMS, _ => Region(0, 0)), [Region(0, 0)], [], 0)
    {
      pgd := new nat[MAX_PGN](_ => 0);
      symrgtbl := new Region[MAX_SYMS](_ => Region(0, 0));
      freergList, fifoPgn, vmEnd, sbrk := [Region(0, 0)], [], 0, 0;
      new;
      assert Decode(0) == Absent;
      assert DecodeAll(pgd[..]) == seq(MAX_PGN, _ => Absent);
      assert symrgtbl[..] == seq(MAX_SYMS, _ => Region(0, 0));
    }

    /** pte_set_fpn. */
    method PteSetFpn(pgn: nat, fpn: nat)
      requires Valid() && pgn < MAX_PGN
      modifies pgd
      ensures Valid() && Abs() == old(Abs()).(pages := old(Abs()).pages[pgn := Resident(fpn % FPN_SPAN)])
      ensures fpn < FPN_SPAN <==> Abs().pages[pgn] == Resident(fpn)
    {
      FpnRoundTrip(pgd[pgn], fpn);
      pgd[pgn] := SetFpn(pgd[pgn], fpn);
      assert DecodeAll(pgd[..]) == old(DecodeAll(pgd[..]))[pgn := Resident(fpn % FPN_SPAN)];
    }

    /** pte_set_swap. */
    method PteSetSwap(pgn: nat, swptyp: nat, swpoff: nat)
      requires Valid() && pgn < MAX_PGN
      modifies pgd
      ensures Valid() && Abs() == old(Abs()).(pages := old(Abs()).pages[pgn := Swapped(swpoff % SWPOFF_SPAN)])
      ensures swpoff < SWPOFF_SPAN <==> Abs().pages[pgn] == Swapped(swpoff)
    {
      SwapRoundTrip(pgd[pgn], swptyp, swpoff);
      pgd[pgn] := SetSwap(pgd[pgn], swptyp, swpoff);
      assert DecodeAll(pgd[..]) == old(DecodeAll(pgd[..]))[pgn := Swapped(swpoff % SWPOFF_SPAN)];
    }

    /** enlist_pgn_node walks to the tail and links the page there. */
    method EnlistPgnNode(pgn: nat)
      modifies this`fifoPgn
      ensures fifoPgn == old(fifoPgn) + [pgn]
    {
      fifoPgn := fifoPgn + [pgn];
    }

    /** find_victim_page: the tail of the list, unless the walk to it exceeds the guard. */
    method FindVictimPage() returns (r: Option<nat>)
      modifies this`fifoPgn
      ensures old(fifoPgn) == [] || |old(fifoPgn)| > WALK_LIMIT ==> r == None && fifoPgn == old(fifoPgn)
      ensures 0 < |old(fifoPgn)| <= WALK_LIMIT ==>
                r == Some(old(fifoPgn)[|old(fifoPgn)| - 1]) && fifoPgn == old(fifoPgn)[..|old(fifoPgn)| - 1]
    {
      if fifoPgn == [] {
        return None;
      }
      var pg := 0;
      var safetyCount := 0;
      while pg + 1 < |fifoPgn|
        invariant pg == safetyCount < |fifoPgn| && pg < WALK_LIMIT
        invariant fifoPgn == old(fifoPgn)
      {
        pg := pg + 1;
        if safetyCount > 10000 {
          return None;
        }
        safetyCount := safetyCount + 1;
      }
      r := Some(fifoPgn[pg]);
      fifoPgn := fifoPgn[..pg];
    }

    /** get_free_vmrg_area: first fit, then shrink, clone-next or dummy. */
    method GetFreeVmrgArea(size: int) returns (r: Option<Region>)
      requires Valid()
      modifies this`freergList
      ensures var i := FirstFit(old(freergList), size);
              if i < |old(freergList)| then
                && r == Some(Region(old(freergList)[i].lo, old(freergList)[i].lo + size))
                && freergList == Carve(old(freergList), i, size)
              else r == None && freergList == old(freergList)
    {
      if size <= 0 {
        return None;
      }
      var rgit := 0;
      while rgit < |freergList|
        invariant 0 <= rgit <= |freergList| && freergList == old(freergList)
        invariant FirstFit(freergList, size) == rgit + FirstFit(freergList[rgit..], size)
      {
        var rg := freergList[rgit];
        if rg.lo + size <= rg.hi {
          if rg.lo + size < rg.hi {
            freergList := freergList[rgit := Region(rg.lo + size, rg.hi)];
          } else if rgit + 1 < |freergList| {
            freergList := freergList[..rgit] + freergList[rgit + 1..];
          } else {
            freergList := freergList[rgit := Region(rg.hi, rg.hi)];
          }
          return Some(Region(rg.lo, rg.lo + size));
        }
        assert freergList[rgit..][1..] == freergList[rgit + 1..];
        rgit := rgit + 1;
      }
      r := None;
    }

    /** __free, with enlist_vm_freerg_list. */
    method Release(rgid: int) returns (ok: bool)
      requires Valid()
      modifies this`freergList, symrgtbl
      ensures Valid() && unchanged(this`fifoPgn, this`vmEnd, this`sbrk)
      ensures ok == (0 <= rgid < MAX_SYMS && old(symrgtbl[..])[rgid] != Region(0, 0))
      ensures !ok ==> Abs() == old(Abs())
      ensures ok ==> var r := old(symrgtbl[..])[rgid];
                     Abs() == old(Abs()).(syms := old(Abs()).syms[rgid := Region(0, 0)],
                                          spare := if r.lo < r.hi then [r] + old(Abs()).spare else old(Abs()).spare)
    {
      if rgid < 0 || rgid >= MAX_SYMS {
        return false;
      }
      var rg := symrgtbl[rgid];
      if rg.lo == 0 && rg.hi == 0 {
        return false;
      }
      symrgtbl[rgid] := Region(0, 0);
      if rg.lo < rg.hi {
        freergList := [rg] + freergList;
      }
      ok := true;
      assert symrgtbl[..] == old(symrgtbl[..])[rgid := Region(0, 0)];
    }

    method SetSymbol(rgid: nat, rg: Region)
      requires Valid() && rgid < MAX_SYMS
      modifies symrgtbl
      ensures Valid() && Abs() == old(Abs()).(syms := old(Abs()).syms[rgid := rg])
    {
      symrgtbl[rgid] := rg;
      assert symrgtbl[..] == old(symrgtbl[..])[rgid := rg];
    }
  }
}
