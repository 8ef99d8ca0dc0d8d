/** libkmem_copy_from_user and libkmem_copy_to_user (src/libmem.c). */
module CopyLoops {
  import opened Options
  import opened PteCodec
  import opened Paging
  import opened Ownership
  import opened Regions
  import opened PagingRuns

  /** Byte by byte from `src` at sbase + i to `dst` at dbase + i, the sums in 32 bits; stops at
      the first access that fails. */
  function Copy(v: View, src: int, sbase: nat, dst: int, dbase: nat, size: nat, i: nat): Reply<()>
    requires WellFormed(v) && i <= size
    decreases size - i
  {
    if i == size then Reply(v, Some(()))
    else
      ReadWellFormed(v, src, (sbase + i) % WORD32);
      var r := Read(v, src, (sbase + i) % WORD32);
      if r.value.None? then Reply(r.view, None)
      else
        WriteWellFormed(r.view, dst, (dbase + i) % WORD32, r.value.value);
        var w := Write(r.view, dst, (dbase + i) % WORD32, r.value.value);
        if w.value.None? then w else Copy(w.view, src, sbase, dst, dbase, size, i + 1)
  }

  function CopyFromUser(v: View, src: int, dst: int, offset: nat, size: nat): Reply<()>
    requires WellFormed(v)
  {
    Copy(v, src, offset, dst, 0, size, 0)
  }

  function CopyToUser(v: View, src: int, dst: int, offset: nat, size: nat): Reply<()>
    requires WellFormed(v)
  {
    Copy(v, src, 0, dst, offset, size, 0)
  }

  /** Every defined byte outside [lo, hi) of process p is the same. */
  ghost predicate KeptBut(m: Machine, m': Machine, p: nat, lo: int, hi: int) {
    forall q: nat, x: nat :: x < BUS_SPAN && Peek(m, q, x).Some? && !(q == p && lo <= x < hi) ==>
        Peek(m', q, x) == Peek(m, q, x)
  }

  /** Live regions of a process, as the invariant of its run provides them. */
  ghost predicate Live(mm: Mm, rg: int) {
    |mm.syms| == MAX_SYMS && 0 <= rg < MAX_SYMS && mm.syms[rg].lo < mm.syms[rg].hi <= BUS_SPAN
  }

  lemma LiveTarget(mm: Mm, rg: int, base: nat, i: nat)
    requires Live(mm, rg) && base < WORD32 && i < WORD32
    requires i > 0 ==> base + i - 1 < BUS_SPAN
    ensures var t := Target(mm, rg, (base + i) % WORD32);
            t.Some? ==> t.value == mm.syms[rg].lo + base + i < mm.syms[rg].hi && base + i < BUS_SPAN
  {
    ModIsSelf(base + i, WORD32);
    var off := (base + i) % WORD32;
    ModIsSelf(mm.syms[rg].lo + off, WORD64);
  }

  lemma ByteKept(m: Machine, m': Machine, p: nat)
    requires ContentKept(m, m')
    ensures KeptBut(m, m', p, 0, 0)
  {
    forall q: nat, x: nat | Peek(m, q, x).Some?
      ensures Peek(m', q, x) == Peek(m, q, x)
    {
      assert Content(m, q, Pgn(x)).Some?;
    }
  }

  /** What a round relies on and restores. */
  ghost predicate SameRun(m: Machine, m': Machine, p: nat)
    requires p < |m.procs|
  {
    Inv(m', {}) && OnlyProc(m, m', p) && SameArea(m.procs[p], m'.procs[p])
  }

  lemma ReadRound(m: Machine, p: nat, src: int, base: nat, i: nat)
    requires Inv(m, {}) && p < |m.procs| && Live(m.procs[p], src)
    requires base < WORD32 && i < WORD32 && (i > 0 ==> base + i - 1 < BUS_SPAN)
    ensures var r := Read(At(m, p), src, (base + i) % WORD32); var m' := With(m, p, r.view);
            var s := m.procs[p].syms[src].lo + base + i;
            && At(m', p) == r.view && SameRun(m, m', p) && KeptBut(m, m', p, 0, 0)
            && (r.value.Some? ==> s < m.procs[p].syms[src].hi && base + i < BUS_SPAN && Peek(m', p, s) == r.value)
  {
    LiveTarget(m.procs[p], src, base, i);
    ReadKeeps(m, p, src, (base + i) % WORD32);
    ByteKept(m, With(m, p, Read(At(m, p), src, (base + i) % WORD32).view), p);
  }

  lemma WriteRound(m: Machine, p: nat, dst: int, base: nat, i: nat, b: Byte)
    requires Inv(m, {}) && p < |m.procs| && Live(m.procs[p], dst)
    requires base < WORD32 && i < WORD32 && (i > 0 ==> base + i - 1 < BUS_SPAN)
    ensures var w := Write(At(m, p), dst, (base + i) % WORD32, b); var m' := With(m, p, w.view);
            var d := m.procs[p].syms[dst].lo + base + i;
            && At(m', p) == w.view && SameRun(m, m', p) && KeptBut(m, m', p, d, d + 1)
            && (w.value.Some? ==> d < m.procs[p].syms[dst].hi && base + i < BUS_SPAN && Peek(m', p, d) == Some(b))
  {
    LiveTarget(m.procs[p], dst, base, i);
    WriteKeeps(m, p, dst, (base + i) % WORD32, b);
    var w := Write(At(m, p), dst, (base + i) % WORD32, b);
    if w.value.None? { ByteKept(m, With(m, p, w.view), p); }
  }

  /** One call of a copy loop: its arguments, and the addresses of the first byte of each range
      and of the end of each region. */
  datatype Plan = Plan(p: nat, src: int, sbase: nat, dst: int, dbase: nat, size: nat,
                       s0: nat, sEnd: nat, d0: nat, dEnd: nat)

  /** The plan of a call on live regions. */
  ghost function PlanOf(m: Machine, p: nat, src: int, sbase: nat, dst: int, dbase: nat, size: nat): Plan
    requires p < |m.procs| && Live(m.procs[p], src) && Live(m.procs[p], dst)
  {
    var s, d := m.procs[p].syms[src], m.procs[p].syms[dst];
    Plan(p, src, sbase, dst, dbase, size, s.lo + sbase, s.hi, d.lo + dbase, d.hi)
  }

  /** Round i can start: no earlier round failed. */
  ghost predicate Ready(m: Machine, c: Plan, i: nat) {
    && Inv(m, {}) && c.p < |m.procs| && WellFormed(At(m, c.p)) && Live(m.procs[c.p], c.src) && Live(m.procs[c.p], c.dst)
    && c == PlanOf(m, c.p, c.src, c.sbase, c.dst, c.dbase, c.size)
    && c.sbase < WORD32 && c.dbase < WORD32 && i <= c.size < WORD32
    && (i > 0 ==> c.s0 + i <= c.sEnd && c.d0 + i <= c.dEnd)
  }

  ghost predicate Apart(c: Plan) {
    c.sEnd <= c.d0 - c.dbase || c.dEnd <= c.s0 - c.sbase
  }

  function CopyPlan(v: View, c: Plan, i: nat): Reply<()>
    requires WellFormed(v) && i <= c.size
  {
    Copy(v, c.src, c.sbase, c.dst, c.dbase, c.size, i)
  }

  /** The second half of round i and the rounds after it. */
  function Deliver(v: View, b: Byte, c: Plan, i: nat): Reply<()>
    requires WellFormed(v) && i < c.size
  {
    WriteWellFormed(v, c.dst, (c.dbase + i) % WORD32, b);
    var w := Write(v, c.dst, (c.dbase + i) % WORD32, b);
    if w.value.None? then w else CopyPlan(w.view, c, i + 1)
  }

  lemma CopyReads(m: Machine, c: Plan, i: nat) returns (m': Machine, b: Option<Byte>)
    requires Ready(m, c, i) && i < c.size
    ensures Ready(m', c, i) && OnlyProc(m, m', c.p) && SameRun(m, m', c.p) && KeptBut(m, m', c.p, 0, 0)
    ensures b.Some? ==> c.s0 + i < c.sEnd && Peek(m', c.p, c.s0 + i) == b
    ensures CopyPlan(At(m, c.p), c, i)
         == if b.None? then Reply(At(m', c.p), None) else Deliver(At(m', c.p), b.value, c, i)
  {
    hide Read, Inv, Peek, KeptBut;
    ReadRound(m, c.p, c.src, c.sbase, i);
    ReadWellFormed(At(m, c.p), c.src, (c.sbase + i) % WORD32);
    var r := Read(At(m, c.p), c.src, (c.sbase + i) % WORD32);
    m', b := With(m, c.p, r.view), r.value;
  }

  lemma CopyWrites(m: Machine, b: Byte, c: Plan, i: nat) returns (m': Machine, ok: bool)
    requires Ready(m, c, i) && i < c.size && c.s0 + i < c.sEnd
    ensures SameRun(m, m', c.p) && KeptBut(m, m', c.p, c.d0 + i, c.d0 + i + 1)
    ensures ok ==> Ready(m', c, i + 1) && Peek(m', c.p, c.d0 + i) == Some(b)
    ensures Deliver(At(m, c.p), b, c, i) == if ok then CopyPlan(At(m', c.p), c, i + 1) else Reply(At(m', c.p), None)
  {
    hide Write, Inv, Peek, KeptBut;
    WriteRound(m, c.p, c.dst, c.dbase, i, b);
    WriteWellFormed(At(m, c.p), c.dst, (c.dbase + i) % WORD32, b);
    var w := Write(At(m, c.p), c.dst, (c.dbase + i) % WORD32, b);
    m', ok := With(m, c.p, w.view), w.value.Some?;
  }

  /** A byte that was defined before arrived. */
  ghost predicate Moved(m: Machine, m': Machine, p: nat, s: nat, d: nat) {
    Peek(m, p, s).Some? ==> Peek(m', p, d) == Peek(m, p, s)
  }

  /** Destination byte j is defined and equals source byte j. */
  ghost predicate Twins(m: Machine, c: Plan, j: nat) {
    Peek(m, c.p, c.d0 + j).Some? && Peek(m, c.p, c.s0 + j) == Peek(m, c.p, c.d0 + j)
  }

  ghost predicate Arrived(m: Machine, m': Machine, c: Plan, j: nat) {
    Moved(m, m', c.p, c.s0 + j, c.d0 + j)
  }

  ghost predicate AllArrived(m: Machine, m': Machine, c: Plan, i: nat) {
    forall j :: i <= j < c.size ==> Arrived(m, m', c, j)
  }

  ghost predicate AllTwins(m: Machine, c: Plan, i: nat) {
    forall j :: i <= j < c.size ==> Twins(m, c, j)
  }

  lemma RoundBytes(m: Machine, m1: Machine, m': Machine, p: nat, s: nat, d: nat)
    requires KeptBut(m, m1, p, 0, 0) && KeptBut(m1, m', p, d, d + 1)
    ensures KeptBut(m, m', p, d, d + 1)
    ensures s < BUS_SPAN && Peek(m1, p, s).Some? && Peek(m', p, d) == Peek(m1, p, s)
      ==> Moved(m, m', p, s, d) && Peek(m', p, s) == Peek(m', p, d)
  {
  }

  lemma KeptNone(m: Machine, m': Machine, p: nat, d: nat)
    requires KeptBut(m, m', p, 0, 0)
    ensures KeptBut(m, m', p, d, d + 1)
  {
  }

  /** One round of the loop. */
  lemma CopyRound(m: Machine, c: Plan, i: nat) returns (m': Machine, ok: bool)
    requires Ready(m, c, i) && i < c.size
    ensures SameRun(m, m', c.p) && KeptBut(m, m', c.p, c.d0 + i, c.d0 + i + 1)
    ensures ok ==> Ready(m', c, i + 1)
    ensures CopyPlan(At(m, c.p), c, i) == if ok then CopyPlan(At(m', c.p), c, i + 1) else Reply(At(m', c.p), None)
    ensures ok ==> Arrived(m, m', c, i) && Twins(m', c, i)
  {
    hide Inv, WellFormed, Peek, CopyPlan, Deliver, KeptBut;
    var m1, b := CopyReads(m, c, i);
    if b.None? {
      KeptNone(m, m1, c.p, c.d0 + i);
      return m1, false;
    }
    m', ok := CopyWrites(m1, b.value, c, i);
    RoundBytes(m, m1, m', c.p, c.s0 + i, c.d0 + i);
  }

  lemma KeptWider(m: Machine, m1: Machine, m': Machine, p: nat, d: nat, hi: nat)
    requires KeptBut(m, m1, p, d, d + 1) && (m' == m1 || KeptBut(m1, m', p, d + 1, hi)) && d < hi
    ensures KeptBut(m, m', p, d, hi)
  {
  }

  lemma CopyDone(m: Machine, c: Plan)
    requires Ready(m, c, c.size)
    ensures CopyPlan(At(m, c.p), c, c.size) == Reply(At(m, c.p), Some(()))
    ensures KeptBut(m, m, c.p, c.d0 + c.size, c.d0 + c.size) && AllArrived(m, m, c, c.size) && AllTwins(m, c, c.size)
  {
  }

  ghost predicate InRange(c: Plan) {
    && c.s0 + c.size <= c.sEnd <= BUS_SPAN && c.sbase <= c.s0
    && c.d0 + c.size <= c.dEnd <= BUS_SPAN && c.dbase <= c.d0
  }

  lemma ReadyRange(m: Machine, c: Plan)
    requires Ready(m, c, c.size) && c.size > 0
    ensures InRange(c)
  {
  }

  /** The rounds from i on keep the invariant, succeed only inside both regions, and change no
      byte outside the destination range, whether or not they succeed.  When the regions are
      apart, or one region is copied towards its start, every byte arrives as it was before. */
  lemma {:induction false} CopyCopies(m: Machine, c: Plan, i: nat) returns (m': Machine, ok: bool)
    requires Ready(m, c, i) && (Apart(c) || c.d0 <= c.s0)
    ensures SameRun(m, m', c.p) && KeptBut(m, m', c.p, c.d0 + i, c.d0 + c.size)
    ensures CopyPlan(At(m, c.p), c, i) == Reply(At(m', c.p), if ok then Some(()) else None)
    ensures ok ==> Ready(m', c, c.size) && AllArrived(m, m', c, i)
    ensures ok && Apart(c) ==> AllTwins(m', c, i)
    decreases c.size - i
  {
    hide Inv, WellFormed, Peek, CopyPlan, KeptBut, AllArrived, AllTwins;
    if i == c.size {
      CopyDone(m, c);
      return m, true;
    }
    var m1;
    m1, ok := CopyRound(m, c, i);
    KeptWider(m, m1, m1, c.p, c.d0 + i, c.d0 + c.size);
    if !ok {
      return m1, false;
    }
    m', ok := CopyCopies(m1, c, i + 1);
    KeptWider(m, m1, m', c.p, c.d0 + i, c.d0 + c.size);
    if ok {
      ReadyRange(m', c);
      LaterRounds(m, m1, m', c, i);
    }
  }

  /** Later rounds read bytes that round i left alone, and leave alone the byte it wrote. */
  lemma LaterRounds(m: Machine, m1: Machine, m': Machine, c: Plan, i: nat)
    requires KeptBut(m, m1, c.p, c.d0 + i, c.d0 + i + 1) && KeptBut(m1, m', c.p, c.d0 + i + 1, c.d0 + c.size)
    requires i < c.size && InRange(c) && (Apart(c) || c.d0 <= c.s0)
    requires Arrived(m, m1, c, i) && Twins(m1, c, i) && AllArrived(m1, m', c, i + 1)
    requires Apart(c) ==> AllTwins(m', c, i + 1)
    ensures AllArrived(m, m', c, i)
    ensures Apart(c) ==> AllTwins(m', c, i)
  {
    hide Peek;
    forall j | i <= j < c.size
      ensures Arrived(m, m', c, j)
    {
      if i < j { assert Arrived(m1, m', c, j); }
    }
    assert Apart(c) ==> Twins(m', c, i);
  }

  lemma OnlyThisProc(m: Machine, m': Machine, p: nat)
    requires p < |m.procs| && OnlyProc(m, m', p)
    ensures m' == With(m, p, At(m', p))
  {
    assert m'.procs == m.procs[p := m'.procs[p]];
  }

  /** libkmem_copy_from_user: byte offset + i of the user region to byte i of the kernel region,
      even when both are the same region. */
  lemma FromUserCopies(m: Machine, c: Plan)
    requires Ready(m, c, 0) && c.dbase == 0 && (Apart(c) || c.src == c.dst)
    ensures var r := CopyFromUser(At(m, c.p), c.src, c.dst, c.sbase, c.size); var m' := With(m, c.p, r.view);
            && SameRun(m, m', c.p) && KeptBut(m, m', c.p, c.d0, c.d0 + c.size)
            && (r.value.Some? ==> AllArrived(m, m', c, 0) && (Apart(c) ==> AllTwins(m', c, 0)))
  {
    hide Inv, Peek, Copy, KeptBut, AllArrived, AllTwins;
    var m', ok := CopyCopies(m, c, 0);
    OnlyThisProc(m, m', c.p);
  }

  /** libkmem_copy_to_user between regions that are apart. */
  lemma ToUserCopies(m: Machine, c: Plan)
    requires Ready(m, c, 0) && c.sbase == 0 && Apart(c)
    ensures var r := CopyToUser(At(m, c.p), c.src, c.dst, c.dbase, c.size); var m' := With(m, c.p, r.view);
            && SameRun(m, m', c.p) && KeptBut(m, m', c.p, c.d0, c.d0 + c.size)
            && (r.value.Some? ==> AllArrived(m, m', c, 0) && AllTwins(m', c, 0))
  {
    hide Inv, Peek, Copy, KeptBut, AllArrived, AllTwins;
    var m', ok := CopyCopies(m, c, 0);
    OnlyThisProc(m, m', c.p);
  }

  ghost predicate Stays(m: Machine, m': Machine, p: nat, a0: nat, j: nat) {
    Moved(m, m', p, a0 + j, a0 + j)
  }

  function Back(c: Plan): Plan {
    Plan(c.p, c.dst, c.dbase, c.src, c.sbase, c.size, c.d0, c.dEnd, c.s0, c.sEnd)
  }

  /** Copying a user range into kernel memory and back restores it, whatever ran in between, as
      long as the regions stayed and nothing wrote the kernel copy. */
  lemma CopyThereAndBack(m0: Machine, c: Plan, m2: Machine)
    requires Ready(m0, c, 0) && c.dbase == 0 && Apart(c) && Ready(m2, Back(c), 0)
    requires var there := CopyFromUser(At(m0, c.p), c.src, c.dst, c.sbase, c.size);
             && there.value.Some?
             && forall j :: 0 <= j < c.size ==> Stays(With(m0, c.p, there.view), m2, c.p, c.d0, j)
    ensures var back := CopyToUser(At(m2, c.p), c.dst, c.src, c.sbase, c.size);
            back.value.Some? ==> forall j :: 0 <= j < c.size ==> Stays(m0, With(m2, c.p, back.view), c.p, c.s0, j)
  {
    hide Inv, Peek, Copy, KeptBut;
    FromUserCopies(m0, c);
    ToUserCopies(m2, Back(c));
    var m1 := With(m0, c.p, CopyFromUser(At(m0, c.p), c.src, c.dst, c.sbase, c.size).view);
    var m3 := With(m2, c.p, CopyToUser(At(m2, c.p), c.dst, c.src, c.sbase, c.size).view);
    forall j | 0 <= j < c.size && AllArrived(m2, m3, Back(c), 0)
      ensures Stays(m0, m3, c.p, c.s0, j)
    {
      assert Arrived(m0, m1, c, j) && Twins(m1, c, j) && Arrived(m2, m3, Back(c), j);
      assert Stays(m1, m2, c.p, c.d0, j);
    }
  }

  lemma ModShift(i: nat, shift: nat)
    requires 0 < shift
    ensures i % shift <= i && i % shift < shift
    ensures i % shift == if i < shift then i else (i - shift) % shift
  {
    if i < shift {
      SameQuotient(i / shift, i % shift, 0, i, shift);
    } else {
      SameQuotient(i / shift, i % shift, (i - shift) / shift + 1, (i - shift) % shift, shift);
      assert i / shift * shift >= 0;
    }
  }

  /** Byte j of a range copied onto itself `d0 - s0` bytes further on. */
  ghost predicate Smeared(m0: Machine, m: Machine, c: Plan, j: nat)
    requires c.s0 < c.d0
  {
    Peek(m, c.p, c.d0 + j) == Peek(m0, c.p, c.s0 + j % (c.d0 - c.s0))
  }

  /** Rounds i.. of a copy within one region towards its end, when i rounds have smeared. */
  lemma {:induction false} CopySmears(m0: Machine, m: Machine, c: Plan, i: nat) returns (m': Machine, ok: bool)
    requires Ready(m, c, i) && c.src == c.dst && c.s0 < c.d0
    requires forall j :: 0 <= j < i ==> Smeared(m0, m, c, j)
    requires forall a :: c.s0 <= a < c.d0 && a < c.s0 + c.size ==>
              Peek(m0, c.p, a).Some? && Peek(m, c.p, a) == Peek(m0, c.p, a)
    ensures SameRun(m, m', c.p)
    ensures CopyPlan(At(m, c.p), c, i) == Reply(At(m', c.p), if ok then Some(()) else None)
    ensures ok ==> forall j :: 0 <= j < c.size ==> Smeared(m0, m', c, j)
    decreases c.size - i
  {
    hide Inv, WellFormed, Peek, CopyPlan;
    if i == c.size {
      CopyDone(m, c);
      return m, true;
    }
    var m1;
    m1, ok := CopyRound(m, c, i);
    if !ok {
      return m1, false;
    }
    ReadySoFar(m1, c, i + 1);
    SmearRound(m0, m, m1, c, i);
    m', ok := CopySmears(m0, m1, c, i + 1);
  }

  lemma ReadySoFar(m: Machine, c: Plan, i: nat)
    requires Ready(m, c, i) && i > 0
    ensures c.s0 + i <= BUS_SPAN && c.d0 + i <= BUS_SPAN
  {
  }

  lemma SmearRound(m0: Machine, m: Machine, m1: Machine, c: Plan, i: nat)
    requires i < c.size && c.s0 < c.d0 && c.d0 + i < BUS_SPAN
    requires KeptBut(m, m1, c.p, c.d0 + i, c.d0 + i + 1) && Arrived(m, m1, c, i)
    requires forall j :: 0 <= j < i ==> Smeared(m0, m, c, j)
    requires forall a :: c.s0 <= a < c.d0 && a < c.s0 + c.size ==>
              Peek(m0, c.p, a).Some? && Peek(m, c.p, a) == Peek(m0, c.p, a)
    ensures forall j :: 0 <= j < i + 1 ==> Smeared(m0, m1, c, j)
    ensures forall a :: c.s0 <= a < c.d0 && a < c.s0 + c.size ==> Peek(m1, c.p, a) == Peek(m0, c.p, a)
  {
    hide Peek;
    var shift := c.d0 - c.s0;
    ModShift(i, shift);
    if shift <= i { assert Smeared(m0, m, c, i - shift); }
    assert Smeared(m0, m1, c, i);
    forall j | 0 <= j < i
      ensures Smeared(m0, m1, c, j)
    {
      ModShift(j, shift);
      assert Smeared(m0, m, c, j);
    }
  }

  /** libkmem_copy_to_user within one region, offset > 0: the loop reads bytes it has written, so
      byte offset + i becomes the old byte i % offset.  For size <= offset that is a copy. */
  lemma ToUserWithinRegion(m: Machine, c: Plan)
    requires Ready(m, c, 0) && c.sbase == 0 && c.src == c.dst && 0 < c.dbase
    requires forall a :: c.s0 <= a < c.d0 && a < c.s0 + c.size ==> Peek(m, c.p, a).Some?
    ensures var r := CopyToUser(At(m, c.p), c.src, c.dst, c.dbase, c.size); var m' := With(m, c.p, r.view);
            SameRun(m, m', c.p) && (r.value.Some? ==> forall j :: 0 <= j < c.size ==> Smeared(m, m', c, j))
  {
    hide Inv, Peek, Copy, KeptBut;
    var m', ok := CopySmears(m, m, c, 0);
    OnlyThisProc(m, m', c.p);
  }

  /** Source byte k is the byte `dbase` places before it. */
  ghost predicate Repeats(m: Machine, c: Plan, k: nat)
    requires c.dbase <= k
  {
    Peek(m, c.p, c.s0 + k) == Peek(m, c.p, c.s0 + k - c.dbase)
  }

  ghost predicate AllRepeat(m: Machine, c: Plan, n: nat) {
    forall k :: c.dbase <= k < n ==> Repeats(m, c, k)
  }

  /** A range whose bytes repeat at a distance has that distance as its period. */
  lemma {:induction false} RepeatsIsPeriodic(m: Machine, c: Plan, j: nat)
    requires 0 < c.dbase && AllRepeat(m, c, j + 1)
    ensures Peek(m, c.p, c.s0 + j % c.dbase) == Peek(m, c.p, c.s0 + j)
    decreases j
  {
    hide Peek;
    ModShift(j, c.dbase);
    if c.dbase <= j {
      assert Repeats(m, c, j);
      RepeatsIsPeriodic(m, c, j - c.dbase);
    }
  }

  /** libkmem_copy_to_user within one region is a copy exactly when every source byte from
      `offset` on equals the byte `offset` places before it.  With size <= offset there is no such
      byte; with overlapping ranges the source has to be periodic. */
  lemma ToUserWithinRegionExact(m: Machine, c: Plan)
    requires Ready(m, c, 0) && c.sbase == 0 && c.src == c.dst
    requires forall a :: c.s0 <= a < c.s0 + c.size ==> Peek(m, c.p, a).Some?
    requires CopyToUser(At(m, c.p), c.src, c.dst, c.dbase, c.size).value.Some?
    ensures AllArrived(m, With(m, c.p, CopyToUser(At(m, c.p), c.src, c.dst, c.dbase, c.size).view), c, 0)
       <==> AllRepeat(m, c, c.size)
  {
    hide Inv, WellFormed, Peek, Copy, KeptBut;
    assert c.d0 == c.s0 + c.dbase;
    if c.dbase == 0 {
      FromUserCopies(m, c);
      assert AllRepeat(m, c, c.size);
    } else {
      ToUserWithinRegion(m, c);
      SmearedIsCopy(m, With(m, c.p, CopyToUser(At(m, c.p), c.src, c.dst, c.dbase, c.size).view), c);
    }
  }

  lemma SmearedIsCopy(m: Machine, m': Machine, c: Plan)
    requires c.d0 == c.s0 + c.dbase && 0 < c.dbase
    requires forall a :: c.s0 <= a < c.s0 + c.size ==> Peek(m, c.p, a).Some?
    requires forall j :: 0 <= j < c.size ==> Smeared(m, m', c, j)
    ensures AllArrived(m, m', c, 0) <==> AllRepeat(m, c, c.size)
  {
    hide Peek;
    if AllRepeat(m, c, c.size) {
      forall j | 0 <= j < c.size
        ensures Arrived(m, m', c, j)
      {
        assert Smeared(m, m', c, j);
        RepeatsIsPeriodic(m, c, j);
      }
    }
    if AllArrived(m, m', c, 0) {
      forall k | c.dbase <= k < c.size
        ensures Repeats(m, c, k)
      {
        ModShift(k, c.dbase);
        assert Arrived(m, m', c, k) && Arrived(m, m', c, k - c.dbase);
        assert Smeared(m, m', c, k) && Smeared(m, m', c, k - c.dbase);
      }
    }
  }

  // ---- copies as runs ------------------------------------------------------------

  /** Call k of a copy from round i on: the load of its round, or the store. */
  predicate IsRound(op: Op, p: nat, src: int, sbase: nat, dst: int, dbase: nat, i: nat, k: nat) {
    if k % 2 == 0 then op == OpRead(p, src, (sbase + i + k / 2) % 0x1_0000_0000)
    else op.OpWrite? && op.p == p && op.rg == dst && op.offset == (dbase + i + k / 2) % 0x1_0000_0000
  }

  predicate AreRounds(ops: seq<Op>, p: nat, src: int, sbase: nat, dst: int, dbase: nat, i: nat) {
    forall k :: 0 <= k < |ops| ==> IsRound(ops[k], p, src, sbase, dst, dbase, i, k)
  }

  /** All n calls succeeded, or some did and then one failed and was the last. */
  predicate StopsAtFailure(t: seq<Event>, n: int, ok: bool) {
    && |t| <= n && (forall k :: 0 <= k < |t| - 1 ==> t[k] != Quiet)
    && (ok ==> |t| == n && forall k :: 0 <= k < |t| ==> t[k] != Quiet)
    && (!ok ==> |t| > 0 && t[|t| - 1] == Quiet)
  }

  lemma TwoMoreCalls(e1: Event, e2: Event, t: seq<Event>, n: int, ok: bool)
    requires StopsAtFailure(t, n, ok) && e1 != Quiet && e2 != Quiet
    ensures StopsAtFailure([e1] + ([e2] + t), n + 2, ok)
  {
  }

  lemma RoundsShift(op1: Op, op2: Op, rest: seq<Op>, p: nat, src: int, sbase: nat, dst: int, dbase: nat, i: nat)
    requires IsRound(op1, p, src, sbase, dst, dbase, i, 0) && IsRound(op2, p, src, sbase, dst, dbase, i, 1)
    requires AreRounds(rest, p, src, sbase, dst, dbase, i + 1)
    ensures AreRounds([op1] + ([op2] + rest), p, src, sbase, dst, dbase, i)
  {
    var ops := [op1] + ([op2] + rest);
    forall k | 0 <= k < |ops|
      ensures IsRound(ops[k], p, src, sbase, dst, dbase, i, k)
    {
      if k >= 2 { assert IsRound(rest[k - 2], p, src, sbase, dst, dbase, i + 1, k - 2); }
    }
  }

  /** Every second call is a store of the byte that the call before it loaded. */
  ghost predicate Relays(m: Machine, ops: seq<Op>, k: nat)
    requires Good(m) && Runnable(m, ops) && 0 < k < |ops|
  {
    k % 2 == 1 ==> ops[k].OpWrite? && Trace(m, ops)[k - 1].Loaded? && Trace(m, ops)[k - 1].b == ops[k].data
  }

  lemma RunTwo(m: Machine, op1: Op, op2: Op, rest: seq<Op>)
    requires Good(m) && Fits(m, op1) && Good(Exec(m, op1).0) && Fits(Exec(m, op1).0, op2)
    requires var m2 := Exec(Exec(m, op1).0, op2).0; Good(m2) && Runnable(m2, rest)
    ensures var (m1, e1) := Exec(m, op1); var (m2, e2) := Exec(m1, op2); var ops := [op1] + ([op2] + rest);
            && Runnable(m, ops) && Final(m, ops) == Final(m2, rest)
            && Trace(m, ops) == [e1] + ([e2] + Trace(m2, rest))
  {
    hide Exec, Inv, Disjoint, Fits, Runnable, Final, Trace;
    RunStep(Exec(m, op1).0, op2, rest);
    RunStep(m, op1, [op2] + rest);
  }

  lemma RelayRound(m: Machine, op1: Op, op2: Op, rest: seq<Op>)
    requires Good(m) && Fits(m, op1) && Good(Exec(m, op1).0) && Fits(Exec(m, op1).0, op2)
    requires var m2 := Exec(Exec(m, op1).0, op2).0;
             Good(m2) && Runnable(m2, rest) && forall k :: 0 < k < |rest| ==> Relays(m2, rest, k)
    requires op2.OpWrite? && Exec(m, op1).1.Loaded? && Exec(m, op1).1.b == op2.data
    ensures var m2 := Exec(Exec(m, op1).0, op2).0; var ops := [op1] + ([op2] + rest);
            Runnable(m, ops) && Final(m, ops) == Final(m2, rest) && forall k :: 0 < k < |ops| ==> Relays(m, ops, k)
  {
    hide Exec, Inv, Disjoint, Fits, Runnable, Final, Trace;
    RunTwo(m, op1, op2, rest);
    RelaysShift(m, Exec(Exec(m, op1).0, op2).0, op1, op2, rest);
  }

  lemma RelaysShift(m: Machine, m2: Machine, op1: Op, op2: Op, rest: seq<Op>)
    requires var ops := [op1] + ([op2] + rest);
             && Good(m) && Runnable(m, ops) && Good(m2) && Runnable(m2, rest) && Relays(m, ops, 1)
             && Trace(m, ops)[2..] == Trace(m2, rest) && forall k :: 0 < k < |rest| ==> Relays(m2, rest, k)
    ensures var ops := [op1] + ([op2] + rest); forall k :: 0 < k < |ops| ==> Relays(m, ops, k)
  {
    hide Inv, Disjoint, Runnable, Trace;
    var ops := [op1] + ([op2] + rest);
    forall k | 0 < k < |ops|
      ensures Relays(m, ops, k)
    {
      if k > 2 {
        assert Relays(m2, rest, k - 2) && ops[k] == rest[k - 2];
        assert Trace(m, ops)[2..][k - 3] == Trace(m, ops)[k - 1];
      }
    }
  }

  /** The load of a round as a step of a run. */
  lemma ReadOp(m: Machine, p: nat, rg: int, offset: nat)
    requires Good(m) && p < |m.procs| && WellFormed(At(m, p))
    ensures var r := Read(At(m, p), rg, offset); var (m', e) := Exec(m, OpRead(p, rg, offset));
            && m' == With(m, p, r.view) && At(m', p) == r.view && Good(m') && WellFormed(r.view)
            && (if r.value.Some? then e.Loaded? && e.b == r.value.value else e == Quiet)
  {
    ReadWellFormed(At(m, p), rg, offset);
    StepKeepsGood(m, OpRead(p, rg, offset));
    hide Read, WellFormed, Inv;
  }

  /** The store that follows it. */
  lemma WriteOp(m: Machine, p: nat, rg: int, offset: nat, b: Byte)
    requires Good(m) && p < |m.procs| && WellFormed(At(m, p))
    ensures var w := Write(At(m, p), rg, offset, b); var (m', e) := Exec(m, OpWrite(p, rg, offset, b));
            && m' == With(m, p, w.view) && At(m', p) == w.view && Good(m') && WellFormed(w.view)
            && (if w.value.Some? then e.Stored? else e == Quiet)
  {
    WriteWellFormed(At(m, p), rg, offset, b);
    StepKeepsGood(m, OpWrite(p, rg, offset, b));
    hide Write, WellFormed, Inv;
  }

  lemma NoStep(m: Machine, p: nat)
    requires Good(m) && p < |m.procs|
    ensures With(m, p, At(m, p)) == m && Runnable(m, []) && Final(m, []) == m && Trace(m, []) == []
  {
  }

  /** A copy call is a run of byte loads and stores, round after round: what is proved of every run
      holds of runs with copies in them.  The copy succeeds exactly when all its loads and stores do,
      and otherwise stops at the first that does not. */
  lemma {:induction false} CopyIsARun(m: Machine, p: nat, src: int, sbase: nat, dst: int, dbase: nat, size: nat, i: nat)
    returns (ops: seq<Op>)
    requires Good(m) && p < |m.procs| && i <= size && WellFormed(At(m, p))
    ensures Runnable(m, ops)
    ensures Final(m, ops) == With(m, p, Copy(At(m, p), src, sbase, dst, dbase, size, i).view)
    ensures AreRounds(ops, p, src, sbase, dst, dbase, i)
    ensures forall k :: 0 < k < |ops| ==> Relays(m, ops, k)
    ensures StopsAtFailure(Trace(m, ops), 2 * (size - i), Copy(At(m, p), src, sbase, dst, dbase, size, i).value.Some?)
    decreases size - i
  {
    hide Exec, Inv, Read, Write, WellFormed, Runnable, Final, Relays;
    NoStep(m, p);
    if i == size {
      ops := [];
    } else {
      ReadOp(m, p, src, (sbase + i) % WORD32);
      var op1 := OpRead(p, src, (sbase + i) % WORD32);
      var m1 := Exec(m, op1).0;
      var r := Read(At(m, p), src, (sbase + i) % WORD32);
      NoStep(m1, p);
      if r.value.None? {
        RunStep(m, op1, []);
        return [op1] + [];
      }
      var op2 := OpWrite(p, dst, (dbase + i) % WORD32, r.value.value);
      WriteOp(m1, p, dst, (dbase + i) % WORD32, r.value.value);
      var m2 := Exec(m1, op2).0;
      NoStep(m2, p);
      var rest := [];
      if Write(r.view, dst, (dbase + i) % WORD32, r.value.value).value.Some? {
        rest := CopyIsARun(m2, p, src, sbase, dst, dbase, size, i + 1);
        TwoMoreCalls(Exec(m, op1).1, Exec(m1, op2).1, Trace(m2, rest), 2 * (size - i - 1),
                     Copy(At(m2, p), src, sbase, dst, dbase, size, i + 1).value.Some?);
      }
      RelayRound(m, op1, op2, rest);
      RunTwo(m, op1, op2, rest);
      RoundsShift(op1, op2, rest, p, src, sbase, dst, dbase, i);
      ops := [op1] + ([op2] + rest);
    }
  }

  /** In a state that a run can reach, distinct live symbols are apart, and a copy between live
      symbols can start. */
  lemma GoodIsReady(m: Machine, p: nat, src: int, sbase: nat, dst: int, dbase: nat, size: nat)
    requires Good(m) && p < |m.procs| && Live(m.procs[p], src) && Live(m.procs[p], dst)
    requires sbase < WORD32 && dbase < WORD32 && size < WORD32
    ensures var c := PlanOf(m, p, src, sbase, dst, dbase, size); Ready(m, c, 0) && (src != dst ==> Apart(c))
  {
    assert WellFormed(At(m, p));
    if src != dst {
      var mm := m.procs[p];
      var s, d := mm.syms[src], mm.syms[dst];
      var i, j := if src < dst then src else dst, if src < dst then dst else src;
      assert Disjoint(mm);
      hide Inv, WellFormed;
      DisjointMeans(mm, i, j, if s.lo < d.lo then d.lo else s.lo);
    }
  }
}
