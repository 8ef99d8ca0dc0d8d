/** Page-table words and virtual addresses (include/mm.h, include/mm64.h, src/mm64.c).

  Words are naturals.  A mask over bits l..h together with a shift by l selects
  the digit `v / unit % span`, with unit == 2^l and span == 2^(h-l+1).  GETVAL
  reads that digit, SETVAL replaces it by the low bits of a value, and SETBIT and
  CLRBIT are SETVAL on a one-bit digit.
 */
module PteCodec {
  const WORD32: nat := 0x1_0000_0000

  const PRESENT: nat := 0x8000_0000     // bit 31
  const SWAPPED: nat := 0x4000_0000     // bit 30
  const FPN_SPAN: nat := 0x2000         // bits 0..12
  const SWPTYP_SPAN: nat := 0x20        // bits 0..4
  const SWPOFF_UNIT: nat := 0x20        // bits 5..25
  const SWPOFF_SPAN: nat := 0x20_0000

  const PAGE_SIZE: nat := 256
  const MAX_PGN: nat := 0x4000          // a 22-bit bus holds 2^14 pages
  const BUS_SPAN: nat := 0x40_0000

  function GetVal(v: nat, unit: nat, span: nat): nat
    requires 0 < unit && 0 < span
  {
    v / unit % span
  }

  function SetVal(v: nat, value: nat, unit: nat, span: nat): nat
    requires 0 < unit && 0 < span
  {
    v / (unit * span) * (unit * span) + value % span * unit + v % unit
  }

  function SetBit(v: nat, mask: nat): nat
    requires 0 < mask
  {
    SetVal(v, 1, mask, 2)
  }

  function ClrBit(v: nat, mask: nat): nat
    requires 0 < mask
  {
    SetVal(v, 0, mask, 2)
  }

  /** pte_set_fpn on one entry. */
  function SetFpn(pte: nat, fpn: nat): nat {
    SetVal(ClrBit(SetBit(pte, PRESENT), SWAPPED), fpn, 1, FPN_SPAN)
  }

  /** pte_set_swap on one entry. */
  function SetSwap(pte: nat, swptyp: nat, swpoff: nat): nat {
    SetVal(SetVal(SetBit(ClrBit(pte, PRESENT), SWAPPED), swptyp, 1, SWPTYP_SPAN), swpoff, SWPOFF_UNIT, SWPOFF_SPAN)
  }

  predicate Present(pte: nat) { GetVal(pte, PRESENT, 2) == 1 }
  predicate SwappedOut(pte: nat) { GetVal(pte, SWAPPED, 2) == 1 }
  function Fpn(pte: nat): nat { GetVal(pte, 1, FPN_SPAN) }
  function Swp(pte: nat): nat { GetVal(pte, SWPOFF_UNIT, SWPOFF_SPAN) }

  /** What a word says about its page, once the stale bits of the other form are ignored. */
  datatype Entry = Absent | Resident(fpn: nat) | Swapped(slot: nat)

  function Decode(pte: nat): Entry {
    if Present(pte) then Resident(Fpn(pte)) else if SwappedOut(pte) then Swapped(Swp(pte)) else Absent
  }

  /** PAGING_PGN and PAGING_OFFST: bits 8..21 and bits 0..7 of an address. */
  function Pgn(addr: nat): (g: nat)
    ensures g < MAX_PGN
  {
    GetVal(addr, PAGE_SIZE, MAX_PGN)
  }

  function Offset(addr: nat): (o: nat)
    ensures o < PAGE_SIZE
  {
    GetVal(addr, 1, PAGE_SIZE)
  }

  lemma SameQuotient(q: int, r: int, q': int, r': int, d: int)
    requires 0 <= r < d && 0 <= r' < d && q * d + r == q' * d + r'
    ensures q == q' && r == r'
  {
    var e := q' - q;
    assert e * d == r - r';
    assert e >= 1 ==> e * d >= d;
    assert e <= -1 ==> e * d <= -d;
  }

  lemma Regroup(h: nat, f: nat, l: nat, unit: nat, span: nat)
    requires l < unit && f < span
    ensures f * unit + l < unit * span
    ensures h * (unit * span) + (f * unit + l) == (h * span + f) * unit + l
  {
    assert f * unit + unit == (f + 1) * unit <= span * unit;
    assert h * (unit * span) == (h * span) * unit;
  }

  /** The three digits of a word are determined by its value. */
  lemma Digits(w: nat, h: nat, f: nat, l: nat, unit: nat, span: nat)
    requires l < unit && f < span && w == h * (unit * span) + f * unit + l
    ensures 0 < unit * span
    ensures w / (unit * span) == h && GetVal(w, unit, span) == f && w % unit == l
  {
    Regroup(h, f, l, unit, span);
    SameQuotient(h, f * unit + l, w / (unit * span), w % (unit * span), unit * span);
    SameQuotient(h * span + f, l, w / unit, w % unit, unit);
    SameQuotient(h, f, (h * span + f) / span, (h * span + f) % span, span);
  }

  /** SETVAL writes its own field and leaves the bits above and below alone. */
  lemma SetThenGet(v: nat, value: nat, unit: nat, span: nat)
    requires 0 < unit && 0 < span
    ensures 0 < unit * span
    ensures GetVal(SetVal(v, value, unit, span), unit, span) == value % span
    ensures SetVal(v, value, unit, span) % unit == v % unit
    ensures SetVal(v, value, unit, span) / (unit * span) == v / (unit * span)
  {
    Digits(SetVal(v, value, unit, span), v / (unit * span), value % span, v % unit, unit, span);
  }

  lemma ModIsSelf(x: nat, span: nat)
    requires 0 < span
    ensures x % span == x <==> x < span
  {
    if x < span {
      SameQuotient(x / span, x % span, 0, x, span);
    }
  }

  lemma FpnDigits(p: nat, w1: nat, w2: nat, w3: nat)
    requires p < 0x1_0000_0000
    requires w1 / 0x1_0000_0000 == p / 0x1_0000_0000 && w1 / 0x8000_0000 % 2 == 1
    requires w2 / 0x8000_0000 == w1 / 0x8000_0000 && w2 / 0x4000_0000 % 2 == 0
    requires w3 / 0x2000 == w2 / 0x2000
    ensures w3 < 0x1_0000_0000 && w3 / 0x8000_0000 % 2 == 1 && w3 / 0x4000_0000 % 2 == 0
  {
    assert w3 / 0x8000_0000 == w2 / 0x8000_0000;
    assert w3 / 0x4000_0000 == w2 / 0x4000_0000;
    assert w1 < 0x1_0000_0000;
  }

  lemma SwapDigits(p: nat, w1: nat, w2: nat, w3: nat, w4: nat)
    requires p < 0x1_0000_0000
    requires w1 / 0x1_0000_0000 == p / 0x1_0000_0000 && w1 / 0x8000_0000 % 2 == 0
    requires w2 / 0x8000_0000 == w1 / 0x8000_0000 && w2 / 0x4000_0000 % 2 == 1
    requires w3 / 0x20 == w2 / 0x20 && w4 / 0x400_0000 == w3 / 0x400_0000
    ensures w4 < 0x1_0000_0000 && w4 / 0x8000_0000 % 2 == 0 && w4 / 0x4000_0000 % 2 == 1
  {
    assert w4 / 0x8000_0000 == w3 / 0x8000_0000 == w2 / 0x8000_0000;
    assert w4 / 0x4000_0000 == w3 / 0x4000_0000 == w2 / 0x4000_0000;
    assert w1 < 0x1_0000_0000;
  }

  /** Whatever the word held, it now names `fpn`, exactly when `fpn` fits its 13 bits. */
  lemma FpnRoundTrip(pte: nat, fpn: nat)
    requires pte < WORD32
    ensures SetFpn(pte, fpn) < WORD32
    ensures Decode(SetFpn(pte, fpn)) == Resident(fpn % FPN_SPAN)
    ensures fpn < 0x2000 <==> Decode(SetFpn(pte, fpn)) == Resident(fpn)
    ensures !SwappedOut(SetFpn(pte, fpn))
  {
    var w1 := SetBit(pte, PRESENT);
    var w2 := ClrBit(w1, SWAPPED);
    var w3 := SetVal(w2, fpn, 1, FPN_SPAN);
    SetThenGet(pte, 1, PRESENT, 2);
    SetThenGet(w1, 0, SWAPPED, 2);
    SetThenGet(w2, fpn, 1, FPN_SPAN);
    FpnDigits(pte, w1, w2, w3);
    ModIsSelf(fpn, FPN_SPAN);
  }

  /** Whatever the word held, it now names swap slot `swpoff`, exactly when that fits its 21 bits. */
  lemma SwapRoundTrip(pte: nat, swptyp: nat, swpoff: nat)
    requires pte < WORD32
    ensures SetSwap(pte, swptyp, swpoff) < WORD32
    ensures Decode(SetSwap(pte, swptyp, swpoff)) == Swapped(swpoff % SWPOFF_SPAN)
    ensures swpoff < 0x20_0000 <==> Decode(SetSwap(pte, swptyp, swpoff)) == Swapped(swpoff)
    ensures !Present(SetSwap(pte, swptyp, swpoff))
  {
    var w1 := ClrBit(pte, PRESENT);
    var w2 := SetBit(w1, SWAPPED);
    var w3 := SetVal(w2, swptyp, 1, SWPTYP_SPAN);
    var w4 := SetVal(w3, swpoff, SWPOFF_UNIT, SWPOFF_SPAN);
    SetThenGet(pte, 0, PRESENT, 2);
    SetThenGet(w1, 1, SWAPPED, 2);
    SetThenGet(w2, swptyp, 1, SWPTYP_SPAN);
    SetThenGet(w3, swpoff, SWPOFF_UNIT, SWPOFF_SPAN);
    SwapDigits(pte, w1, w2, w3, w4);
    ModIsSelf(swpoff, SWPOFF_SPAN);
  }

  /** Where the fields lie in a word that was 0: bit 31 and the frame in bits 0..12 of a present page; bit 30, the
      swap type in bits 0..4 and the slot in bits 5..25 of a swapped one. */
  lemma EntryLayout(pte: nat, fpn: nat, swptyp: nat, swpoff: nat)
    requires pte == 0 && fpn < 0x2000 && swptyp < 32 && swpoff < 0x20_0000
    ensures SetFpn(pte, fpn) == 0x8000_0000 + fpn
    ensures SetSwap(pte, swptyp, swpoff) == 0x4000_0000 + swpoff * 32 + swptyp
  {
    hide SetVal;
    EmptyWords(pte);
    LowField(PRESENT, fpn, FPN_SPAN);
    LowField(SWAPPED, swptyp, SWPTYP_SPAN);
    FieldAt(SWAPPED + swptyp, swpoff, swptyp);
  }

  lemma EmptyWords(pte: nat)
    requires pte == 0
    ensures ClrBit(SetBit(pte, PRESENT), SWAPPED) == PRESENT && SetBit(ClrBit(pte, PRESENT), SWAPPED) == SWAPPED
  {
    hide SetVal;
    FieldOf(pte, 1, PRESENT, 0, 0);
    FieldOf(SetBit(pte, PRESENT), 0, SWAPPED, 1, 0);
    FieldOf(pte, 0, PRESENT, 0, 0);
    FieldOf(ClrBit(pte, PRESENT), 1, SWAPPED, 0, 0);
  }

  /** A one-bit field of a word with these bits above and below it. */
  lemma FieldOf(w: nat, value: nat, unit: nat, above: nat, below: nat)
    requires 0 < unit && value < 2 && w == above * (unit * 2) + below && below < unit
    ensures SetVal(w, value, unit, 2) == above * (unit * 2) + value * unit + below
  {
    assert w == above * (unit * 2) + 0 * unit + below;
    Digits(w, above, 0, below, unit, 2);
  }

  lemma LowField(w: nat, value: nat, span: nat)
    requires 0 < span && value < span && w % span == 0
    ensures SetVal(w, value, 1, span) == w + value
  {
    ModIsSelf(value, span);
    assert w / span * span == w;
  }

  lemma FieldAt(w: nat, swpoff: nat, swptyp: nat)
    requires w == SWAPPED + swptyp && swptyp < 32 && swpoff < SWPOFF_SPAN
    ensures SetVal(w, swpoff, SWPOFF_UNIT, SWPOFF_SPAN) == SWAPPED + swpoff * 32 + swptyp
  {
    ModIsSelf(swpoff, SWPOFF_SPAN);
    assert w / 0x400_0000 == 0x10 && w % 32 == swptyp;
  }

  /** Page number and offset tell two addresses apart exactly up to the 22-bit bus. */
  lemma AddressSplit(a: nat, b: nat)
    ensures Pgn(a) == Pgn(b) && Offset(a) == Offset(b) <==> a % 0x40_0000 == b % 0x40_0000
    ensures a < 0x40_0000 ==> a == Pgn(a) * 256 + Offset(a)
  {
    assert forall x: nat :: x % BUS_SPAN == Pgn(x) * PAGE_SIZE + Offset(x);
  }

  /** get_pd_from_pagenum: five 9-bit indices above a 12-bit shift. */
  datatype Walk = Walk(pgd: nat, p4d: nat, pud: nat, pmd: nat, pt: nat)

  function Indices(pgn: nat): Walk {
    var addr := pgn * 0x1000;
    Walk(GetVal(addr, 0x1_0000_0000_0000, 512), GetVal(addr, 0x80_0000_0000, 512), GetVal(addr, 0x4000_0000, 512),
         GetVal(addr, 0x20_0000, 512), GetVal(addr, 0x1000, 512))
  }

  /** The five indices identify a page number below 2^45: no two pages share a path. */
  lemma IndicesIdentifyPage(p: nat, q: nat)
    requires p < 0x2000_0000_0000 && q < 0x2000_0000_0000
    ensures Indices(p) == Indices(q) <==> p == q
  {
    IndicesRebuild(p);
    IndicesRebuild(q);
  }

  lemma IndicesRebuild(pgn: nat)
    requires pgn < 0x2000_0000_0000
    ensures var w := Indices(pgn); pgn == (((w.pgd * 512 + w.p4d) * 512 + w.pud) * 512 + w.pmd) * 512 + w.pt
  {
    var q1 := pgn / 512;
    var q2 := q1 / 512;
    var q3 := q2 / 512;
    var q4 := q3 / 512;
    assert pgn * 0x1000 / 0x1000 == pgn;
    assert pgn * 0x1000 / 0x20_0000 == q1;
    assert pgn * 0x1000 / 0x4000_0000 == q2;
    assert pgn * 0x1000 / 0x80_0000_0000 == q3;
    assert pgn * 0x1000 / 0x1_0000_0000_0000 == q4;
  }
}
