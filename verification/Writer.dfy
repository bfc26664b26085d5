/** The second half of assemble_module as it runs: every section into its own buffer, framed onto the output. */
module Writer {
  import opened Bytes
  import opened Leb
  import opened Isa
  import opened Sexpr
  import opened Sections
  import opened Loader
  import A = Assembler
  import Em = Emitter

  /** A function as assemble_module has collected it: type index, declared locals, names, the forms of its body. */
  datatype FnForm = FnForm(t: nat, locals: seq<byte>, names: seq<Option<string>>, body: seq<Sx>)

  /** What the first half of assemble_module collects. */
  datatype Forms = Forms(
    types: seq<FuncType>,
    imports: seq<Import>,
    fns: seq<FnForm>,
    table: Option<Limits>,
    memory: Option<Limits>,
    globals: seq<Global>,
    exports: seq<Export>,
    start: Option<nat>,
    elems: seq<Elem>,
    datas: seq<Data>,
    fnNames: seq<Option<string>>,
    globalNames: seq<Option<string>>,
    typeNames: seq<Option<string>>)

  function NamesFor(s: Forms, f: FnForm): A.Names { A.Names(s.fnNames, s.globalNames, s.typeNames, f.names) }

  /** The code of a body, if it assembles. */
  function BodyCode(s: Forms, f: FnForm): Option<seq<byte>>
  {
    A.WholeBody(A.EmitSeq(NamesFor(s, f), [None], f.body, |f.body|, 0))
  }

  predicate Assembles(s: Forms) { forall i :: 0 <= i < |s.fns| ==> BodyCode(s, s.fns[i]).Some? }

  predicate GlobalsOk(s: Forms) { forall i :: 0 <= i < |s.globals| ==> InitOk(s.globals[i].init) }

  function DefOfFn(s: Forms, f: FnForm): FnDef
  {
    FnDef(f.t, f.locals, match BodyCode(s, f) case Some(code) => code case None => [])
  }

  function DefsOf(s: Forms): (r: seq<FnDef>)
    ensures |r| == |s.fns|
  {
    seq(|s.fns|, i requires 0 <= i < |s.fns| => DefOfFn(s, s.fns[i]))
  }

  /** The module the forms describe. */
  function DefOf(s: Forms): ModuleDef
  {
    ModuleDef(s.types, s.imports, DefsOf(s), s.table, s.memory, s.globals, s.exports, s.start, s.elems, s.datas)
  }

  // ----- bookkeeping of what is written -----

  lemma Assoc(a: seq<byte>, b: seq<byte>, c: seq<byte>)
    ensures a + b + c == a + (b + c)
  {
  }

  lemma VecStep<T>(head: seq<byte>, xs: seq<T>, i: nat, enc: T -> seq<byte>)
    requires i < |xs|
    ensures head + EncVec(xs[..i], enc) + enc(xs[i]) == head + EncVec(xs[..i + 1], enc)
  {
    hide EncVec;
    assert xs[..i] + [xs[i]] == xs[..i + 1];
    EncVecSnoc(xs[..i], xs[i], enc);
    Assoc(head, EncVec(xs[..i], enc), enc(xs[i]));
  }

  lemma VecStart<T>(head: seq<byte>, xs: seq<T>, enc: T -> seq<byte>)
    ensures head + EncVec(xs[..0], enc) == head && xs[..|xs|] == xs
  {
  }

  /** A vector of no items is not framed at all; otherwise it is one section. */
  lemma ManyChunk<T>(before: seq<byte>, xs: seq<T>, id: byte, enc: T -> seq<byte>, rest: seq<Chunk>)
    ensures before + EncVec(EncMany(xs, id, enc) + rest, EncSection)
         == if |xs| == 0 then before + EncVec(rest, EncSection)
            else before + EncSection(Chunk(id, EncList(xs, enc))) + EncVec(rest, EncSection)
  {
    if |xs| == 0 {
      assert [] + rest == rest;
    } else {
      ChunkStep(before, Chunk(id, EncList(xs, enc)), rest);
    }
  }

  lemma OptionalChunk<T>(before: seq<byte>, o: Option<T>, id: byte, payload: T -> seq<byte>, rest: seq<Chunk>)
    ensures before + EncVec(EncOptional(o, id, payload) + rest, EncSection)
         == if o.None? then before + EncVec(rest, EncSection)
            else before + EncSection(Chunk(id, payload(o.value))) + EncVec(rest, EncSection)
  {
    match o
    case None => assert [] + rest == rest;
    case Some(x) => ChunkStep(before, Chunk(id, payload(x)), rest);
  }

  lemma ChunkStep(before: seq<byte>, c: Chunk, rest: seq<Chunk>)
    ensures before + EncVec([c] + rest, EncSection) == before + EncSection(c) + EncVec(rest, EncSection)
  {
    assert ([c] + rest)[0] == c && ([c] + rest)[1..] == rest;
    Assoc(before, EncSection(c), EncVec(rest, EncSection));
  }

  // ----- sections -----

  method PutSection(out: ByteBuf, id: byte, payload: ByteBuf)
    requires out != payload
    modifies out
    ensures out.data == old(out.data) + EncSection(Chunk(id, payload.data))
  {
    out.Put(id);
    out.PutLebU32(|payload.data|);
    out.PutBytes(payload.data);
    Assoc(old(out.data), [id], LebU(|payload.data|));
    Assoc(old(out.data), [id] + LebU(|payload.data|), payload.data);
    Assoc([id], LebU(|payload.data|), payload.data);
  }

  /** A counted run of bytes, put one by one. */
  method PutEach(b: ByteBuf, bs: seq<byte>)
    modifies b
    ensures b.data == old(b.data) + EncBytes(bs)
  {
    b.PutLebU32(|bs|);
    for j := 0 to |bs|
      invariant b.data == old(b.data) + LebU(|bs|) + bs[..j]
    {
      b.Put(bs[j]);
      assert bs[..j] + [bs[j]] == bs[..j + 1];
      Assoc(old(b.data) + LebU(|bs|), bs[..j], [bs[j]]);
    }
    assert bs[..|bs|] == bs;
    Assoc(old(b.data), LebU(|bs|), bs);
  }

  method PutType(b: ByteBuf, t: FuncType)
    modifies b
    ensures b.data == old(b.data) + EncType(t)
  {
    hide EncBytes;
    b.Put(0x60);
    PutEach(b, t.params);
    PutEach(b, t.results);
    Assoc(old(b.data), [0x60], EncBytes(t.params));
    Assoc(old(b.data), [0x60] + EncBytes(t.params), EncBytes(t.results));
    Assoc([0x60], EncBytes(t.params), EncBytes(t.results));
  }

  method PutCounted(b: ByteBuf, bs: seq<byte>)
    modifies b
    ensures b.data == old(b.data) + EncBytes(bs)
  {
    b.PutLebU32(|bs|);
    b.PutBytes(bs);
    Assoc(old(b.data), LebU(|bs|), bs);
  }

  method TypeSection(out: ByteBuf, types: seq<FuncType>)
    modifies out
    ensures out.data == old(out.data) + EncSection(Chunk(1, EncList(types, EncType)))
  {
    hide EncType, EncSection, EncVec, LebU;
    var b := new ByteBuf();
    b.PutLebU32(|types|);
    VecStart(LebU(|types|), types, EncType);
    assert b.data == LebU(|types|);
    for i := 0 to |types|
      invariant b.data == LebU(|types|) + EncVec(types[..i], EncType) && out.data == old(out.data)
    {
      PutType(b, types[i]);
      VecStep(LebU(|types|), types, i, EncType);
    }
    PutSection(out, 1, b);
  }

  method PutImport(b: ByteBuf, x: Import)
    modifies b
    ensures b.data == old(b.data) + EncImport(x)
  {
    hide EncBytes, LebU;
    PutCounted(b, x.from);
    PutCounted(b, x.name);
    b.Put(0x00);
    b.PutLebU32(x.t);
    Four(old(b.data), EncBytes(x.from), EncBytes(x.name), [0x00], LebU(x.t));
  }

  lemma Four(h: seq<byte>, a: seq<byte>, b: seq<byte>, c: seq<byte>, d: seq<byte>)
    ensures h + a + b + c + d == h + (a + (b + (c + d)))
  {
    Three(h + a, b, c, d);
    Assoc(h, a, b + (c + d));
  }

  lemma Three(h: seq<byte>, a: seq<byte>, b: seq<byte>, c: seq<byte>)
    ensures h + a + b + c == h + (a + (b + c))
  {
    Assoc(h + a, b, c);
    Assoc(h, a, b + c);
  }

  method ImportSection(out: ByteBuf, imports: seq<Import>)
    requires |imports| > 0
    modifies out
    ensures out.data == old(out.data) + EncSection(Chunk(2, EncList(imports, EncImport)))
  {
    hide EncImport, EncSection, EncVec, LebU;
    var b := new ByteBuf();
    b.PutLebU32(|imports|);
    VecStart(LebU(|imports|), imports, EncImport);
    assert b.data == LebU(|imports|);
    for i := 0 to |imports|
      invariant b.data == LebU(|imports|) + EncVec(imports[..i], EncImport) && out.data == old(out.data)
    {
      PutImport(b, imports[i]);
      VecStep(LebU(|imports|), imports, i, EncImport);
    }
    PutSection(out, 2, b);
  }

  method FunctionSection(out: ByteBuf, fns: seq<FnForm>, ghost ts: seq<nat>)
    requires |fns| == |ts| > 0 && forall i :: 0 <= i < |fns| ==> ts[i] == fns[i].t
    modifies out
    ensures out.data == old(out.data) + EncSection(Chunk(3, EncList(ts, EncIndex)))
  {
    hide EncSection, EncVec, LebU;
    var b := new ByteBuf();
    b.PutLebU32(|fns|);
    VecStart(LebU(|ts|), ts, EncIndex);
    assert b.data == LebU(|ts|);
    for i := 0 to |fns|
      invariant b.data == LebU(|ts|) + EncVec(ts[..i], EncIndex) && out.data == old(out.data)
    {
      b.PutLebU32(fns[i].t);
      VecStep(LebU(|ts|), ts, i, EncIndex);
    }
    PutSection(out, 3, b);
  }

  method PutLimits(b: ByteBuf, l: Limits)
    modifies b
    ensures b.data == old(b.data) + EncLimits(l)
  {
    hide LebU;
    b.Put(if l.max.Some? then 0x01 else 0x00);
    b.PutLebU32(l.min);
    if l.max.Some? {
      b.PutLebU32(l.max.value);
      Three(old(b.data), [0x01], LebU(l.min), LebU(l.max.value));
    } else {
      Assoc(old(b.data), [0x00], LebU(l.min));
    }
  }

  method TableSection(out: ByteBuf, l: Limits)
    modifies out
    ensures out.data == old(out.data) + EncSection(Chunk(4, EncTable(l)))
  {
    hide EncSection, EncLimits, LebU;
    var b := new ByteBuf();
    b.PutLebU32(1);
    b.Put(0x70);
    PutLimits(b, l);
    Three([], LebU(1), [0x70], EncLimits(l));
    NoPrefix(LebU(1));
    NoPrefix(EncTable(l));
    PutSection(out, 4, b);
  }

  lemma NoPrefix(a: seq<byte>)
    ensures [] + a == a
  {
  }

  method MemorySection(out: ByteBuf, l: Limits)
    modifies out
    ensures out.data == old(out.data) + EncSection(Chunk(5, EncMemory(l)))
  {
    hide EncSection, EncLimits, LebU;
    var b := new ByteBuf();
    b.PutLebU32(1);
    NoPrefix(LebU(1));
    PutLimits(b, l);
    PutSection(out, 5, b);
  }

  method PutInit(b: ByteBuf, i: Init)
    requires InitOk(i)
    modifies b
    ensures b.data == old(b.data) + EncInit(i)
  {
    hide LebU, LebS;
    match i
    case I32(v) => b.Put(0x41); b.PutLebS(v); Assoc(old(b.data), [0x41], LebS(v));
    case I64(v) => b.Put(0x42); b.PutLebS(v); Assoc(old(b.data), [0x42], LebS(v));
    case OfGlobal(g) => b.Put(0x23); b.PutLebU32(g); Assoc(old(b.data), [0x23], LebU(g));
  }

  method PutGlobal(b: ByteBuf, g: Global)
    requires InitOk(g.init)
    modifies b
    ensures b.data == old(b.data) + EncGlobal(g)
  {
    hide EncInit;
    b.Put(g.t);
    b.Put(if g.mutable then 0x01 else 0x00);
    ghost var two: seq<byte> := [g.t, if g.mutable then 0x01 else 0x00];
    assert b.data == old(b.data) + two;
    PutInit(b, g.init);
    b.Put(OP_END);
    Three(old(b.data), two, EncInit(g.init), [OP_END]);
  }

  method GlobalSection(out: ByteBuf, globals: seq<Global>)
    requires forall i :: 0 <= i < |globals| ==> InitOk(globals[i].init)
    requires |globals| > 0
    modifies out
    ensures out.data == old(out.data) + EncSection(Chunk(6, EncList(globals, EncGlobal)))
  {
    hide EncGlobal, EncSection, EncVec, LebU;
    var b := new ByteBuf();
    b.PutLebU32(|globals|);
    VecStart(LebU(|globals|), globals, EncGlobal);
    assert b.data == LebU(|globals|);
    for i := 0 to |globals|
      invariant b.data == LebU(|globals|) + EncVec(globals[..i], EncGlobal) && out.data == old(out.data)
    {
      PutGlobal(b, globals[i]);
      VecStep(LebU(|globals|), globals, i, EncGlobal);
    }
    PutSection(out, 6, b);
  }

  /** emit_export_entry. */
  method PutExport(b: ByteBuf, e: Export)
    modifies b
    ensures b.data == old(b.data) + EncExport(e)
  {
    hide EncBytes, LebU;
    PutCounted(b, e.name);
    b.Put(e.kind);
    b.PutLebU32(e.index);
    Three(old(b.data), EncBytes(e.name), [e.kind], LebU(e.index));
  }

  method ExportSection(out: ByteBuf, exports: seq<Export>)
    requires |exports| > 0
    modifies out
    ensures out.data == old(out.data) + EncSection(Chunk(7, EncList(exports, EncExport)))
  {
    hide EncExport, EncSection, EncVec, LebU;
    var b := new ByteBuf();
    b.PutLebU32(|exports|);
    VecStart(LebU(|exports|), exports, EncExport);
    assert b.data == LebU(|exports|);
    for i := 0 to |exports|
      invariant b.data == LebU(|exports|) + EncVec(exports[..i], EncExport) && out.data == old(out.data)
    {
      PutExport(b, exports[i]);
      VecStep(LebU(|exports|), exports, i, EncExport);
    }
    PutSection(out, 7, b);
  }

  method StartSection(out: ByteBuf, start: nat)
    modifies out
    ensures out.data == old(out.data) + EncSection(Chunk(8, EncIndex(start)))
  {
    hide EncSection, LebU;
    var b := new ByteBuf();
    b.PutLebU32(start);
    NoPrefix(LebU(start));
    PutSection(out, 8, b);
  }

  method PutOffset(b: ByteBuf, o: u32)
    modifies b
    ensures b.data == old(b.data) + EncOffset(o)
  {
    hide LebS;
    b.Put(0x41);
    b.PutLebS(Signed32(o));
    b.Put(OP_END);
    Three(old(b.data), [0x41], LebS(Signed32(o)), [OP_END]);
  }

  method PutElem(b: ByteBuf, e: Elem)
    modifies b
    ensures b.data == old(b.data) + EncElem(e)
  {
    hide LebU, EncOffset, EncVec;
    b.PutLebU32(0);
    PutOffset(b, e.offset);
    b.PutLebU32(|e.fns|);
    ghost var head := b.data;
    VecStart(head, e.fns, EncIndex);
    for k := 0 to |e.fns|
      invariant b.data == head + EncVec(e.fns[..k], EncIndex)
    {
      b.PutLebU32(e.fns[k]);
      VecStep(head, e.fns, k, EncIndex);
    }
    Four(old(b.data), LebU(0), EncOffset(e.offset), LebU(|e.fns|), EncVec(e.fns, EncIndex));
  }

  method ElemSection(out: ByteBuf, elems: seq<Elem>)
    requires |elems| > 0
    modifies out
    ensures out.data == old(out.data) + EncSection(Chunk(9, EncList(elems, EncElem)))
  {
    hide EncElem, EncSection, EncVec, LebU;
    var b := new ByteBuf();
    b.PutLebU32(|elems|);
    VecStart(LebU(|elems|), elems, EncElem);
    assert b.data == LebU(|elems|);
    for i := 0 to |elems|
      invariant b.data == LebU(|elems|) + EncVec(elems[..i], EncElem) && out.data == old(out.data)
    {
      PutElem(b, elems[i]);
      VecStep(LebU(|elems|), elems, i, EncElem);
    }
    PutSection(out, 9, b);
  }

  method PutData(b: ByteBuf, d: Data)
    modifies b
    ensures b.data == old(b.data) + EncData(d)
  {
    hide LebU, EncOffset, EncBytes;
    b.Put(0x00);
    PutOffset(b, d.offset);
    PutCounted(b, d.bytes);
    Three(old(b.data), [0x00], EncOffset(d.offset), EncBytes(d.bytes));
  }

  method DataSection(out: ByteBuf, datas: seq<Data>)
    requires |datas| > 0
    modifies out
    ensures out.data == old(out.data) + EncSection(Chunk(11, EncList(datas, EncData)))
  {
    hide EncData, EncSection, EncVec, LebU;
    var b := new ByteBuf();
    b.PutLebU32(|datas|);
    VecStart(LebU(|datas|), datas, EncData);
    assert b.data == LebU(|datas|);
    for i := 0 to |datas|
      invariant b.data == LebU(|datas|) + EncVec(datas[..i], EncData) && out.data == old(out.data)
    {
      PutData(b, datas[i]);
      VecStep(LebU(|datas|), datas, i, EncData);
    }
    PutSection(out, 11, b);
  }

  // ----- code -----

  /** One function's entry; false where its body does not assemble. */
  method PutEntry(bodies: ByteBuf, s: Forms, f: FnForm) returns (ok: bool)
    modifies bodies
    ensures ok == BodyCode(s, f).Some? && (ok ==> bodies.data == old(bodies.data) + EncEntry(DefOfFn(s, f)))
  {
    hide A.EmitSeq, EncLocals, LebU;
    var e := new Em.Emitter(NamesFor(s, f));
    var status, _ := e.EmitSeq(f.body, |f.body|, 0);
    if status != A.ROk { return false; }
    assert bodies.data == old(bodies.data);
    var body := new ByteBuf();
    PutLocals(body, f.locals);
    body.PutBytes(e.code.data);
    body.Put(OP_END);
    ghost var d := DefOfFn(s, f);
    NoPrefix(d.code);
    NoPrefix(EncLocals(f.locals));
    Assoc(EncLocals(f.locals), d.code, [OP_END]);
    PutCounted(bodies, body.data);
    return true;
  }

  method CodeSection(out: ByteBuf, s: Forms) returns (ok: bool)
    requires |s.fns| > 0
    modifies out
    ensures ok <==> Assembles(s)
    ensures ok ==> out.data == old(out.data) + EncSection(Chunk(10, EncList(DefsOf(s), EncEntry)))
  {
    hide EncSection, EncVec, LebU, BodyCode, EncEntry;
    var bodies := new ByteBuf();
    ghost var ds := DefsOf(s);
    bodies.PutLebU32(|s.fns|);
    VecStart(LebU(|ds|), ds, EncEntry);
    assert bodies.data == LebU(|ds|);
    for i := 0 to |s.fns|
      invariant bodies.data == LebU(|ds|) + EncVec(ds[..i], EncEntry) && out.data == old(out.data)
      invariant forall k :: 0 <= k < i ==> BodyCode(s, s.fns[k]).Some?
    {
      ok := PutEntry(bodies, s, s.fns[i]);
      if !ok { return false; }
      assert ds[i] == DefOfFn(s, s.fns[i]);
      VecStep(LebU(|ds|), ds, i, EncEntry);
    }
    PutSection(out, 10, bodies);
    return true;
  }

  // ----- the file -----

  lemma ManyStep<T>(before: seq<byte>, xs: seq<T>, id: byte, enc: T -> seq<byte>, rest: seq<Chunk>, all: seq<byte>)
    requires before + EncVec(EncMany(xs, id, enc) + rest, EncSection) == all
    ensures |xs| == 0 ==> before + EncVec(rest, EncSection) == all
    ensures |xs| > 0 ==> before + EncSection(Chunk(id, EncList(xs, enc))) + EncVec(rest, EncSection) == all
  {
    hide EncSection, EncVec;
    ManyChunk(before, xs, id, enc, rest);
  }

  lemma OptionalStep<T>(before: seq<byte>, o: Option<T>, id: byte,
      payload: T -> seq<byte>, rest: seq<Chunk>, all: seq<byte>)
    requires before + EncVec(EncOptional(o, id, payload) + rest, EncSection) == all
    ensures o.None? ==> before + EncVec(rest, EncSection) == all
    ensures o.Some? ==> before + EncSection(Chunk(id, payload(o.value))) + EncVec(rest, EncSection) == all
  {
    hide EncSection, EncVec;
    OptionalChunk(before, o, id, payload, rest);
  }

  ghost predicate Left(data: seq<byte>, rest: seq<Chunk>, d: ModuleDef) { data + EncVec(rest, EncSection) == EncModule(d) }

  /** The header and the sections up to the table. */
  method PutFirst(s: Forms) returns (out: ByteBuf)
    ensures fresh(out) && Left(out.data, FromMemory(DefOf(s)), DefOf(s))
  {
    hide EncSection, EncVec, EncList, EncImport, EncTable, FromMemory, DefsOf;
    ghost var d, all := DefOf(s), EncModule(DefOf(s));
    out := new ByteBuf();
    out.PutBytes(HEADER);
    NoPrefix(HEADER);
    ChunkStep(out.data, Chunk(1, EncList(d.types, EncType)), FromImports(d));
    TypeSection(out, s.types);
    assert Left(out.data, FromImports(d), d);
    ManyStep(out.data, d.imports, 2, EncImport, FromFunctions(d), all);
    if |s.imports| > 0 { ImportSection(out, s.imports); }
    assert Left(out.data, FromFunctions(d), d);
    TypesOfForms(s);
    ManyStep(out.data, TypeIndices(d.fns), 3, EncIndex, FromTable(d), all);
    if |s.fns| > 0 { FunctionSection(out, s.fns, TypeIndices(d.fns)); }
    assert Left(out.data, FromTable(d), d);
    OptionalStep(out.data, d.table, 4, EncTable, FromMemory(d), all);
    if s.table.Some? { TableSection(out, s.table.value); }
  }

  lemma TypesOfForms(s: Forms)
    ensures var ts := TypeIndices(DefOf(s).fns); |ts| == |s.fns| && forall i :: 0 <= i < |ts| ==> ts[i] == s.fns[i].t
  {
    hide BodyCode;
  }

  /** The sections from the memory to the elements. */
  method PutMiddle(s: Forms, out: ByteBuf)
    requires GlobalsOk(s) && Left(out.data, FromMemory(DefOf(s)), DefOf(s))
    modifies out
    ensures Left(out.data, FromCode(DefOf(s)), DefOf(s))
  {
    hide EncModule, EncSection, EncVec, EncList, EncMemory, FromCode, DefsOf;
    ghost var d, all := DefOf(s), EncModule(DefOf(s));
    OptionalStep(out.data, d.memory, 5, EncMemory, FromGlobals(d), all);
    if s.memory.Some? { MemorySection(out, s.memory.value); }
    assert Left(out.data, FromGlobals(d), d);
    ManyStep(out.data, d.globals, 6, EncGlobal, FromExports(d), all);
    if |s.globals| > 0 { GlobalSection(out, s.globals); }
    assert Left(out.data, FromExports(d), d);
    ManyStep(out.data, d.exports, 7, EncExport, FromStart(d), all);
    if |s.exports| > 0 { ExportSection(out, s.exports); }
    assert Left(out.data, FromStart(d), d);
    OptionalStep(out.data, d.start, 8, EncIndex, FromElems(d), all);
    if s.start.Some? { StartSection(out, s.start.value); }
    assert Left(out.data, FromElems(d), d);
    ManyStep(out.data, d.elems, 9, EncElem, FromCode(d), all);
    if |s.elems| > 0 { ElemSection(out, s.elems); }
  }

  /** The emitting half of assemble_module: the file of the module the forms describe, unless a body does not assemble. */
  method AssembleModule(s: Forms) returns (ok: bool, out: ByteBuf)
    requires GlobalsOk(s)
    ensures ok <==> Assembles(s)
    ensures ok ==> out.data == EncModule(DefOf(s))
  {
    hide EncModule, EncSection, EncVec, EncList, DefsOf, BodyCode;
    out := PutFirst(s);
    PutMiddle(s, out);
    ghost var d, all := DefOf(s), EncModule(DefOf(s));
    ManyStep(out.data, d.fns, 10, EncEntry, FromDatas(d), all);
    if |s.fns| > 0 {
      ok := CodeSection(out, s);
      if !ok { return; }
    }
    LastStep(out.data, d);
    if |s.datas| > 0 { DataSection(out, s.datas); }
    ok := true;
  }

  lemma LastStep(data: seq<byte>, d: ModuleDef)
    requires data + EncVec(FromDatas(d), EncSection) == EncModule(d)
    ensures |d.datas| == 0 ==> data == EncModule(d)
    ensures |d.datas| > 0 ==> data + EncSection(Chunk(11, EncList(d.datas, EncData))) == EncModule(d)
  {
    hide EncModule, EncSection;
    assert FromDatas(d) == EncMany(d.datas, 11, EncData) + [];
    ManyChunk(data, d.datas, 11, EncData, []);
  }
}
