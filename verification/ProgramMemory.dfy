/** What a program sees of memory when it runs among others (src/cpu.c, src/os.c, src/libmem.c): the
  loader gives every process its mm, and every instruction makes its library calls on it. */
module ProgramMemory {
  import opened Options
  import opened ReadyQueue
  import opened CpuLoop
  import opened CpuRuns
  import M = PagingRuns
  import Ownership
  import Paging

  /** A library call without the process that makes it. */
  datatype Call =
    | CallAlloc(rg: int, size: nat)
    | CallFree(rg: int)
    | CallRead(rg: int, offset: nat)
    | CallWrite(rg: int, offset: nat, data: Paging.Byte)

  /** The library calls of every instruction of every program: none for CALC, one for the others, a
      load and a store for each byte of a copy. */
  type Code = (nat, nat) -> seq<Call>

  function OpOf(c: Call, i: nat): M.Op {
    match c
    case CallAlloc(rg, size) => M.OpAlloc(i, rg, size)
    case CallFree(rg) => M.OpFree(i, rg)
    case CallRead(rg, offset) => M.OpRead(i, rg, offset)
    case CallWrite(rg, offset, data) => M.OpWrite(i, rg, offset, data)
  }

  /** A call with the process and the instruction it belongs to; `None` for the loader's init_mm. */
  datatype Mark = Mark(op: M.Op, maker: Option<(nat, nat)>)

  function CallsOf(code: Code, i: nat, at: nat): (r: seq<Mark>)
    ensures |r| == |code(i, at)|
    ensures forall k :: 0 <= k < |r| ==> r[k] == Mark(OpOf(code(i, at)[k], i), Some((i, at)))
  {
    seq(|code(i, at)|, k requires 0 <= k < |code(i, at)| => Mark(OpOf(code(i, at)[k], i), Some((i, at))))
  }

  /** The process whose next instruction the section executes, as its place in the load order. */
  ghost predicate Executes(o: Os, a: Actor, i: nat) {
    && a.CpuTurn? && i < |o.programs| && Holds(o, a.c, o.programs[i])
    && o.cpus[a.c].mode.Recheck? && Pc(o, o.programs[i]) < o.programs[i].size
  }

  /** The memory calls of one section. */
  ghost function MarksOf(o: Os, a: Actor, code: Code): seq<Mark> {
    if a.LoaderTurn? then (if o.loaded < |o.programs| then [Mark(M.OpSpawn, None)] else [])
    else if i: nat :| Executes(o, a, i) then CallsOf(code, i, Pc(o, o.programs[i]))
    else []
  }

  ghost function Marks(o: Os, run: seq<Actor>, code: Code): seq<Mark>
    requires Inv(o) && Runnable(o, run)
    decreases |run|
  {
    if run == [] then [] else
      ActKeeps(o, run[0]);
      MarksOf(o, run[0], code) + Marks(Act(o, run[0]).0, run[1..], code)
  }

  function Ops(marks: seq<Mark>): (r: seq<M.Op>)
    ensures |r| == |marks| && forall k :: 0 <= k < |r| ==> r[k] == marks[k].op
  {
    seq(|marks|, k requires 0 <= k < |marks| => marks[k].op)
  }

  // ---- program order --------------------------------------------------------------------

  predicate MadeBy(m: Mark, i: nat) {
    m.maker.Some? && m.maker.value.0 == i
  }

  /** Calls of process i from instruction `from` on. */
  predicate NoneBefore(marks: seq<Mark>, i: nat, from: nat) {
    forall k :: 0 <= k < |marks| && MadeBy(marks[k], i) ==> from <= marks[k].maker.value.1
  }

  predicate InOrder(marks: seq<Mark>, i: nat) {
    forall j, k :: 0 <= j < k < |marks| && MadeBy(marks[j], i) && MadeBy(marks[k], i) ==>
        marks[j].maker.value.1 <= marks[k].maker.value.1
  }

  /** A section's calls of process i are those of its next instruction, which it then leaves behind. */
  lemma SectionMarks(o: Os, a: Actor, code: Code, i: nat)
    requires Inv(o) && Enabled(o, a) && i < |o.programs|
    ensures var o' := Act(o, a).0; var p := o.programs[i];
            && o'.programs == o.programs && o'.loaded <= |o.programs| && Progress(o, p) <= Progress(o', p)
            && forall k :: 0 <= k < |MarksOf(o, a, code)| && MadeBy(MarksOf(o, a, code)[k], i) ==>
                 MarksOf(o, a, code)[k].maker.value.1 == Progress(o, p) < Progress(o', p)
  {
    ActProgress(o, a, o.programs[i]);
    ActLoads(o, a);
    if a.CpuTurn? {
      CpuPc(o, a.c);
      if j: nat :| Executes(o, a, j) {
        HolderIsLive(o, a.c, o.programs[j]);
        hide Inv, CpuStep;
        forall h: nat | Executes(o, a, h)
          ensures o.programs[h] == o.programs[j]
        {
        }
      }
    }
  }

  lemma {:induction false} CallsInOrder(o: Os, run: seq<Actor>, code: Code, i: nat)
    requires Inv(o) && Runnable(o, run) && i < |o.programs|
    ensures NoneBefore(Marks(o, run, code), i, Progress(o, o.programs[i])) && InOrder(Marks(o, run, code), i)
    decreases |run|
  {
    if run == [] {
    } else {
      var o1 := Act(o, run[0]).0;
      ActKeeps(o, run[0]);
      SectionMarks(o, run[0], code, i);
      CallsInOrder(o1, run[1..], code, i);
      var first, rest := MarksOf(o, run[0], code), Marks(o1, run[1..], code);
      hide Inv, Act, MarksOf;
      assert Marks(o, run, code) == first + rest;
      OrderConcat(first, rest, i, Progress(o, o.programs[i]), Progress(o1, o.programs[i]));
    }
  }

  lemma OrderConcat(first: seq<Mark>, rest: seq<Mark>, i: nat, at: nat, next: nat)
    requires at <= next && NoneBefore(rest, i, next) && InOrder(rest, i)
    requires forall k :: 0 <= k < |first| && MadeBy(first[k], i) ==> first[k].maker.value.1 == at < next
    ensures NoneBefore(first + rest, i, at) && InOrder(first + rest, i)
  {
  }

  // ---- what is stored and loaded ------------------------------------------------------------

  /** The mark tells who makes the call. */
  predicate Signed(m: Mark) {
    match m.op
    case OpSpawn => m.maker.None?
    case OpAlloc(p, rg, size) => MadeBy(m, p)
    case OpFree(p, rg) => MadeBy(m, p)
    case OpRead(p, rg, offset) => MadeBy(m, p)
    case OpWrite(p, rg, offset, data) => MadeBy(m, p)
  }

  predicate AllSigned(marks: seq<Mark>) {
    forall k :: 0 <= k < |marks| ==> Signed(marks[k])
  }

  lemma SectionIsSigned(o: Os, a: Actor, code: Code)
    ensures AllSigned(MarksOf(o, a, code))
  {
    hide Executes;
  }

  lemma {:induction false} MarksAreSigned(o: Os, run: seq<Actor>, code: Code)
    requires Inv(o) && Runnable(o, run)
    ensures AllSigned(Marks(o, run, code))
    decreases |run|
  {
    if run == [] {
    } else {
      var o1 := Act(o, run[0]).0;
      hide Inv, Act, MarksOf, Signed;
      ActKeeps(o, run[0]);
      SectionIsSigned(o, run[0], code);
      MarksAreSigned(o1, run[1..], code);
      assert Marks(o, run, code) == MarksOf(o, run[0], code) + Marks(o1, run[1..], code);
    }
  }

  /** Byte k of a history belongs to the process that makes call k. */
  predicate SameMaker(e: M.Event, m: Mark) {
    e.Loaded? || e.Stored? ==> MadeBy(m, e.p)
  }

  lemma {:induction false} EventsAreSigned(m: Ownership.Machine, marks: seq<Mark>, k: nat)
    requires M.Good(m) && M.Runnable(m, Ops(marks)) && AllSigned(marks) && k < |marks|
    ensures SameMaker(M.Trace(m, Ops(marks))[k], marks[k])
    decreases |marks|
  {
    var ops := Ops(marks);
    M.StepKeepsGood(m, ops[0]);
    assert Ops(marks[1..]) == ops[1..] && Signed(marks[0]);
    if k == 0 {
      hide M.Good, Paging.Read, Paging.Write, Paging.Alloc, Paging.Free;
    } else {
      hide M.Good, M.Exec;
      EventsAreSigned(M.Exec(m, ops[0]).0, marks[1..], k - 1);
    }
  }

  /** Call j comes before call k in the program of their process. */
  predicate Precedes(marks: seq<Mark>, j: nat, k: nat) {
    && j < |marks| && k < |marks| && marks[j].maker.Some? && marks[k].maker.Some?
    && marks[j].maker.value.0 == marks[k].maker.value.0
    && (marks[j].maker.value.1 < marks[k].maker.value.1 || (marks[j].maker.value.1 == marks[k].maker.value.1 && j < k))
  }

  /** Event e does not store at address a. */
  predicate LeavesByte(e: M.Event, a: nat) {
    !(e.Stored? && e.a == a)
  }

  /** No call that comes between x and y in their program stores at address a. */
  ghost predicate NoStoreBetween(marks: seq<Mark>, t: seq<M.Event>, x: nat, y: nat, a: nat)
    requires |t| == |marks|
  {
    forall z: nat :: Precedes(marks, x, z) && Precedes(marks, z, y) ==> LeavesByte(t[z], a)
  }

  /** A load of process i, after a store of its own to the same address. */
  ghost predicate LoadsBack(marks: seq<Mark>, t: seq<M.Event>, i: nat, x: nat, y: nat)
    requires |t| == |marks|
  {
    && Precedes(marks, x, y) && MadeBy(marks[x], i) && t[x].Stored? && t[y].Loaded? && t[x].a == t[y].a
    && NoStoreBetween(marks, t, x, y, t[y].a)
  }

  lemma OrderIsGlobal(marks: seq<Mark>, t: seq<M.Event>, i: nat, x: nat, y: nat)
    requires |t| == |marks| && InOrder(marks, i) && LoadsBack(marks, t, i, x, y)
    requires forall k :: 0 <= k < |t| ==> SameMaker(t[k], marks[k])
    ensures x < y && t[x].p == t[y].p == i
    ensures forall z :: x < z < y ==> M.Spares(t[z], i, t[y].a)
  {
    assert SameMaker(t[x], marks[x]) && SameMaker(t[y], marks[y]);
    forall z | x < z < y
      ensures M.Spares(t[z], i, t[y].a)
    {
      assert SameMaker(t[z], marks[z]);
      if MadeBy(marks[z], i) { assert Precedes(marks, x, z) && Precedes(marks, z, y); }
    }
  }

  /** Every program has its memory to itself: on any CPUs, under any schedule, beside any other
      processes, a successful load returns the byte that the same program last stored at that
      address in program order. */
  lemma LoadSeesOwnLastStore(o: Os, run: seq<Actor>, code: Code, m: Ownership.Machine, i: nat, x: nat, y: nat)
    requires Inv(o) && Runnable(o, run) && i < |o.programs|
    requires M.Good(m) && M.Runnable(m, Ops(Marks(o, run, code)))
    requires LoadsBack(Marks(o, run, code), M.Trace(m, Ops(Marks(o, run, code))), i, x, y)
    ensures var t := M.Trace(m, Ops(Marks(o, run, code))); t[y].b == t[x].b
  {
    CallsInOrder(o, run, code, i);
    MarksAreSigned(o, run, code);
    var marks := Marks(o, run, code);
    hide Inv, Marks, M.Good, InOrder, AllSigned;
    var t := M.Trace(m, Ops(marks));
    forall k | 0 <= k < |t|
      ensures SameMaker(t[k], marks[k])
    {
      EventsAreSigned(m, marks, k);
    }
    OrderIsGlobal(marks, t, i, x, y);
    M.ReadReturnsLastWrite(m, Ops(marks), x, y);
  }

  // ---- the loader's mm ------------------------------------------------------------------------

  function Spawns(marks: seq<Mark>): nat {
    if marks == [] then 0 else (if marks[0].op.OpSpawn? then 1 else 0) + Spawns(marks[1..])
  }

  lemma {:induction false} SpawnsConcat(a: seq<Mark>, b: seq<Mark>)
    ensures Spawns(a + b) == Spawns(a) + Spawns(b)
  {
    if a == [] {
      assert a + b == b;
    } else {
      assert (a + b)[1..] == a[1..] + b;
      SpawnsConcat(a[1..], b);
    }
  }

  lemma {:induction false} NoSpawns(marks: seq<Mark>)
    requires forall k :: 0 <= k < |marks| ==> !marks[k].op.OpSpawn?
    ensures Spawns(marks) == 0
  {
    if marks == [] {
    } else {
      NoSpawns(marks[1..]);
    }
  }

  lemma {:induction false} SpawnsAreLoads(o: Os, run: seq<Actor>, code: Code)
    requires Inv(o) && Runnable(o, run)
    ensures Final(o, run).loaded == o.loaded + Spawns(Marks(o, run, code))
    decreases |run|
  {
    if run == [] {
    } else {
      var o1 := Act(o, run[0]).0;
      ActKeeps(o, run[0]);
      OneLoad(o, run[0], code);
      hide Inv, Act, MarksOf;
      SpawnsAreLoads(o1, run[1..], code);
      SpawnsConcat(MarksOf(o, run[0], code), Marks(o1, run[1..], code));
    }
  }

  lemma OneLoad(o: Os, a: Actor, code: Code)
    requires Inv(o) && Enabled(o, a)
    ensures Act(o, a).0.loaded == o.loaded + Spawns(MarksOf(o, a, code))
  {
    if a.LoaderTurn? {
      assert [Mark(M.OpSpawn, None)][1..] == [];
    } else {
      CpuPc(o, a.c);
      NoSpawns(MarksOf(o, a, code));
    }
  }

  lemma CallKeepsProcs(m: Ownership.Machine, op: M.Op)
    requires M.Good(m) && M.Fits(m, op)
    ensures |M.Exec(m, op).0.procs| == |m.procs| + if op.OpSpawn? then 1 else 0
  {
    hide M.Good, Paging.Read, Paging.Write, Paging.Alloc, Paging.Free;
  }

  lemma {:induction false} SpawnsMakeProcs(m: Ownership.Machine, marks: seq<Mark>)
    requires M.Good(m) && M.Runnable(m, Ops(marks))
    ensures |M.Final(m, Ops(marks)).procs| == |m.procs| + Spawns(marks)
    decreases |marks|
  {
    if marks == [] {
    } else {
      var ops := Ops(marks);
      M.StepKeepsGood(m, ops[0]);
      CallKeepsProcs(m, ops[0]);
      assert Ops(marks[1..]) == ops[1..];
      hide M.Good, M.Exec;
      SpawnsMakeProcs(M.Exec(m, ops[0]).0, marks[1..]);
    }
  }

  /** Place i of the load order is the i-th mm: after any run from start-up there is one for every
      process admitted so far. */
  lemma EveryProcessHasItsMm(timeSlot: int, programs: seq<Proc>, ncpus: nat, run: seq<Actor>, code: Code,
                             m: Ownership.Machine)
    requires var o := Boot(timeSlot, programs, ncpus); Inv(o) && Runnable(o, run)
    requires M.Good(m) && m.procs == [] && M.Runnable(m, Ops(Marks(Boot(timeSlot, programs, ncpus), run, code)))
    ensures var o := Boot(timeSlot, programs, ncpus);
            |M.Final(m, Ops(Marks(o, run, code))).procs| == Final(o, run).loaded
  {
    var o := Boot(timeSlot, programs, ncpus);
    SpawnsAreLoads(o, run, code);
    SpawnsMakeProcs(m, Marks(o, run, code));
  }
}
