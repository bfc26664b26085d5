/**
 What a program starts with: by the standard (section 4.5.4 of the WebAssembly Core Specification 1.0), and as
 deep_main sets it up. They are the same only under conditions on the memory and on the element segments.
 */
module Instance {
  import opened Bytes
  import opened Isa
  import opened Machine
  import opened Wasm
  import opened Sections
  import opened Loader
  import opened Program

  // ----- memory -----

  /** The standard's initial memory; none if the program declares none. */
  function StdMemory(memory: Option<Limits>): seq<byte>
  {
    match memory case Some(l) => Zeros(l.min * PAGE_SIZE) case None => []
  }

  /** A declared memory that deep_main provides: not empty, and smaller than the pool it is taken from. */
  predicate Provided(l: Limits) { 0 < l.min && l.min * PAGE_SIZE < POOL_SIZE }

  /**
   The memory deep_main provides, and the number of pages it goes by, are the standard's exactly for sizes it can
   provide: no pages become one, and for two or more the allocator returns NULL.
   */
  lemma MemoryIff(l: Loaded)
    requires l.memory.Some?
    ensures MemoryOf(l) == StdMemory(l.memory) && Pages(l) == l.memory.value.min <==> Provided(l.memory.value)
  {
    if l.memory.value.min > 1 { assert |StdMemory(l.memory)| > 0; }
  }

  /** (memory 0): memory.size answers 1 where the standard's answers 0. */
  lemma EmptyMemory(file: seq<byte>, l: Loaded, info: FnInfo, st: Store)
    requires l.memory == Some(Limits(0, None)) && |info.offsets| > 0 && st.memory == StdMemory(l.memory)
    ensures StepPlain(MachineOf(file, l), info.offsets, Plain.MemSize, InitialState(l, info)).Some?
    ensures StepPlain(MachineOf(file, l), info.offsets, Plain.MemSize, InitialState(l, info)).value.stack
      == [1, 0, 0, 0]
    ensures EvalPlain(Plain.MemSize, st, []) == Normal(st, [Val(W32, 0)])
  {
    assert Types(Last<Val>([], 0)) == [] && [] + [Val(W32, 0)] == [Val(W32, 0)];
    assert Le(1, 4) == [1, 0, 0, 0];
  }

  /** (memory 2): the program goes on without a byte of memory where the standard has 131072. */
  lemma BigMemory(l: Loaded)
    requires l.memory == Some(Limits(2, None))
    ensures MemoryOf(l) == [] && Pages(l) == 2 && |StdMemory(l.memory)| == 0x2_0000
  {
  }

  // ----- table -----

  /** What the standard puts at position k: the last segment that covers it decides. */
  function Entry(elems: seq<Elem>, k: nat): Option<nat>
    decreases |elems|
  {
    if elems == [] then None
    else
      var e := elems[|elems| - 1];
      if e.offset <= k < e.offset + |e.fns| then Some(e.fns[k - e.offset]) else Entry(elems[..|elems| - 1], k)
  }

  function Entries(size: nat, elems: seq<Elem>): (r: seq<Option<nat>>)
    ensures |r| == size
  {
    seq(size, k requires 0 <= k < size => Entry(elems, k))
  }

  predicate SegmentsFit(size: nat, elems: seq<Elem>) { forall i :: 0 <= i < |elems| ==> elems[i].offset + |elems[i].fns| <= size }

  /** The standard's table; None: a segment lies outside it and the program does not start. */
  function StdTable(table: Option<Limits>, elems: seq<Elem>): Option<seq<Option<nat>>>
  {
    var size: nat := if table.Some? then table.value.min else 0;
    if SegmentsFit(size, elems) then Some(Entries(size, elems)) else None
  }

  function TableRefs(table: seq<nat>): (r: seq<Option<nat>>)
    ensures |r| == |table|
  {
    seq(|table|, i requires 0 <= i < |table| => if table[i] == 0xFFFF_FFFF then None else Some(table[i]))
  }

  /** No segment names the number that stands for an empty entry. */
  predicate Named(elems: seq<Elem>) { forall i, j :: 0 <= i < |elems| && 0 <= j < |elems[i].fns| ==> elems[i].fns[j] != 0xFFFF_FFFF }

  function Blank(size: nat): seq<nat> { seq(size, i => NO_FUNC) }

  lemma {:induction false} EntryIs(size: nat, elems: seq<Elem>, k: nat)
    requires SegmentsFit(size, elems) && Named(elems) && k < size < 0x1_0000_0000
    ensures TableRefs(ApplyElems(Blank(size), elems))[k] == Entry(elems, k)
    decreases |elems|
  {
    hide ApplyElem;
    if elems != [] {
      var n := |elems| - 1;
      EntryIs(size, elems[..n], k);
      ElemInTable(ApplyElems(Blank(size), elems[..n]), elems[n].offset, elems[n].fns, k);
    }
  }

  /** The table deep_main fills is the standard's exactly if every segment fits: it drops what lies outside. */
  lemma TableIff(l: Loaded)
    requires Named(l.elems) && (l.table.Some? ==> l.table.value.min < 0x1_0000_0000)
    ensures StdTable(l.table, l.elems) == Some(TableRefs(TableOf(l)))
      <==> SegmentsFit(if l.table.Some? then l.table.value.min else 0, l.elems)
  {
    hide ApplyElems, Entry;
    var size: nat := if l.table.Some? then l.table.value.min else 0;
    if SegmentsFit(size, l.elems) {
      if l.table.Some? {
        assert Blank(size) == seq(l.table.value.min, i => NO_FUNC);
        forall k | 0 <= k < size ensures TableRefs(TableOf(l))[k] == Entry(l.elems, k) { EntryIs(size, l.elems, k); }
      }
      assert TableRefs(TableOf(l)) == Entries(size, l.elems);
    }
  }

  /** A table of one entry and a segment at 5: the standard does not start the program, deep_main leaves the table empty. */
  lemma SegmentOutside(l: Loaded, f: nat)
    requires l.table == Some(Limits(1, None)) && l.elems == [Elem(5, [f])]
    ensures StdTable(l.table, l.elems) == None && TableOf(l) == [0xFFFF_FFFF]
  {
    assert l.elems[0].offset + |l.elems[0].fns| == 6;
    var blank := seq(1, i => NO_FUNC);
    assert blank == [NO_FUNC] && l.elems[..0] == [] && ApplyElems(blank, []) == blank;
    assert [f][..0] == [] && ApplyElem(blank, 5, []) == blank;
    assert ApplyElem(blank, 5, [f]) == blank;
  }

  // ----- programs without a memory -----

  predicate MemoryOp(q: Plain) { q.Load? || q.Store? || q.MemSize? || q.MemGrow? }

  predicate NoMemorySeq(ins: seq<Ins>)
    decreases ins
  {
    ins == [] || (NoMemory(ins[0]) && NoMemorySeq(ins[1..]))
  }

  /** Does an instruction never touch memory, itself or inside? */
  predicate NoMemory(i: Ins)
    decreases i
  {
    match i
    case L(l) => l.P? ==> !MemoryOp(l.p)
    case Block(_, _, body) => NoMemorySeq(body)
    case If(_, thn, els) => NoMemorySeq(thn) && NoMemorySeq(els)
  }

  predicate NoMemoryProg(p: Prog) { forall f :: 0 <= f < |p.fns| && p.fns[f].Some? ==> NoMemorySeq(p.fns[f].value.body) }

  /** The outcome with another memory. */
  function With(o: Outcome, memory: seq<byte>): Outcome
  {
    match o
    case Normal(s, vs) => Normal(s.(memory := memory), vs)
    case Jump(n, s, vs) => Jump(n, s.(memory := memory), vs)
    case Ret(s, vs) => Ret(s.(memory := memory), vs)
    case other => other
  }

  /** Such code does the same whatever the memory, and leaves it alone. */
  lemma {:induction false} MemoryUnusedSeq(p: Prog, fuel: nat, ins: seq<Ins>, s: Store, vs: seq<Val>, memory: seq<byte>)
    requires NoMemoryProg(p) && NoMemorySeq(ins)
    ensures EvalSeq(p, fuel, ins, s.(memory := memory), vs) == With(EvalSeq(p, fuel, ins, s, vs), memory)
    decreases fuel, LenSeq(ins), 3
  {
    hide EvalOne, NoMemoryProg, NoMemory;
    if ins != [] {
      MemoryUnusedOne(p, fuel, ins[0], s, vs, memory);
      var o := EvalOne(p, fuel, ins[0], s, vs);
      if o.Normal? { MemoryUnusedSeq(p, fuel, ins[1..], o.s, o.stack, memory); }
    }
  }

  lemma {:induction false} MemoryUnusedOne(p: Prog, fuel: nat, i: Ins, s: Store, vs: seq<Val>, memory: seq<byte>)
    requires NoMemoryProg(p) && NoMemory(i)
    ensures EvalOne(p, fuel, i, s.(memory := memory), vs) == With(EvalOne(p, fuel, i, s, vs), memory)
    decreases fuel, Len(i), 2
  {
    hide EvalBody, EvalCall, EvalPlain, NoMemoryProg, NoMemorySeq;
    match i
    case L(P(q)) => MemoryUnusedPlain(q, s, vs, memory);
    case L(Call(f)) => if f < |p.fns| && p.fns[f].Some? { MemoryUnusedCall(p, fuel, f, s, vs, memory); }
    case L(CallIndirect(t)) =>
      if |vs| >= 1 && vs[|vs| - 1].n < |p.table| && p.table[vs[|vs| - 1].n].Some? {
        var f := p.table[vs[|vs| - 1].n].value;
        if f < |p.fns| && p.fns[f].Some? { MemoryUnusedCall(p, fuel, f, s, vs[..|vs| - 1], memory); }
      }
    case L(_) =>
    case Block(loop, bt, body) => MemoryUnusedBody(p, fuel, body, loop, |BlockResults(bt)|, s, memory);
    case If(bt, thn, els) =>
      MemoryUnusedBody(p, fuel, thn, false, |BlockResults(bt)|, s, memory);
      MemoryUnusedBody(p, fuel, els, false, |BlockResults(bt)|, s, memory);
  }

  lemma MemoryUnusedPlain(q: Plain, s: Store, vs: seq<Val>, memory: seq<byte>)
    requires !MemoryOp(q)
    ensures EvalPlain(q, s.(memory := memory), vs) == With(EvalPlain(q, s, vs), memory)
  {
  }

  lemma {:induction false} MemoryUnusedBody(p: Prog, fuel: nat, body: seq<Ins>, loop: bool, arity: nat, s: Store,
      memory: seq<byte>)
    requires NoMemoryProg(p) && NoMemorySeq(body)
    ensures EvalBody(p, fuel, body, loop, arity, s.(memory := memory))
      == With(EvalBody(p, fuel, body, loop, arity, s), memory)
    decreases fuel, LenSeq(body), 4
  {
    hide EvalSeq, NoMemoryProg, NoMemorySeq;
    MemoryUnusedSeq(p, fuel, body, s, [], memory);
    match EvalSeq(p, fuel, body, s, [])
    case Jump(n, s', vs) => if n == 0 && loop && fuel > 0 { MemoryUnusedBody(p, fuel - 1, body, loop, arity, s', memory); }
    case _ =>
  }

  lemma {:induction false} MemoryUnusedCall(p: Prog, fuel: nat, f: nat, s: Store, vs: seq<Val>, memory: seq<byte>)
    requires NoMemoryProg(p) && f < |p.fns| && p.fns[f].Some?
    ensures EvalCall(p, fuel, f, s.(memory := memory), vs) == With(EvalCall(p, fuel, f, s, vs), memory)
    decreases fuel, 0, 0
  {
    hide EvalSeq, NoMemorySeq;
    var fn := p.fns[f].value;
    if fuel > 0 && |vs| >= |fn.params| {
      var callee := s.(locals := Last(vs, |fn.params|) + ZeroVals(fn.locals));
      assert callee.(memory := memory) == s.(memory := memory).(locals := Last(vs, |fn.params|) + ZeroVals(fn.locals));
      MemoryUnusedSeq(p, fuel - 1, fn.body, callee, [], memory);
    }
  }
}
