/** A program that meets every condition of the end-to-end theorem, and what its file returns. */
module Example {
  import opened Bytes
  import opened Leb
  import opened Isa
  import opened Machine
  import opened Wasm
  import opened Discipline
  import opened Layout
  import opened Sections
  import opened Loader
  import opened Program
  import opened Instance
  import opened Scoping
  import opened Fuel
  import opened EndToEnd
  import A = Assembler
  import F = Format
  import N = Numerals
  import S = Source
  import T = TypeTable

  ghost const ANSWER := S.Node(S.Const(W32, "42"), [])

  ghost const LEAVE := S.Node(S.Index(S.IndexKind.Br, S.Name("out")), [])

  // (block $out (result i32) (i32.const 42) (br $out))
  ghost const BLOCK := S.Block(false, Some("out"), TYPE_I32, [ANSWER, LEAVE])

  ghost const INSIDE := [L(P(Plain.Const(W32, 42))), L(Br(0))]

  ghost const INS := [Block(false, TYPE_I32, INSIDE)]

  ghost const RETURNS_I32 := SrcType([], [W32])

  ghost const MAIN_FN := SrcFn(SrcUse(None, RETURNS_I32), [], [], [BLOCK], false)

  /** (module (func (export "main") (result i32) (block ...))) */
  ghost const PROGRAM :=
    Src([], [], [MAIN_FN], None, None, [], [Export(MAIN, 0x00, 0)], None, [], [], [None], [])

  /** Its one type is given inline. */
  lemma TypeIs()
    ensures AllTypes(PROGRAM) == [RETURNS_I32] && AllTypeNames(PROGRAM) == [None]
    ensures UseFine(PROGRAM, MAIN_FN.use) && TypeIndex(PROGRAM, MAIN_FN.use) == 0
    ensures SigOf(PROGRAM, MAIN_FN.use) == RETURNS_I32
  {
    assert UsesOf(PROGRAM) == [MAIN_FN.use];
    var wanted := Inline([MAIN_FN.use]);
    assert wanted == [Some(RETURNS_I32)] && wanted[..0] == [];
    assert T.Inserted([], wanted) == [] + [RETURNS_I32];
    assert TypeDefs([RETURNS_I32]) == [TypeDef(RETURNS_I32)];
    var none: seq<Option<string>> := [None];
    assert AllTypeNames(PROGRAM) == none;
  }

  lemma Parts()
    ensures S.AstOk(ANSWER) && S.AstOk(LEAVE) && S.SeqOk(BLOCK.body) && S.AstOk(BLOCK) && S.SeqOk([BLOCK])
    ensures HeightSeq([BLOCK]) == 1
  {
    var b := BLOCK.body;
    assert S.AstOk(ANSWER) && S.AstOk(LEAVE) && Height(ANSWER) == 0 && Height(LEAVE) == 0;
    assert b[1..] == [LEAVE] && b[1..][1..] == [] && [BLOCK][1..] == [];
    assert S.SeqOk(b[1..]) && HeightSeq(b[1..]) == 0;
    assert S.SeqOk(b) && HeightSeq(b) == 0;
  }

  lemma FortyTwo()
    ensures S.LitOk(W32, "42") && S.LitValue(W32, "42") == 42
  {
    hide N.IntLit;
    assert N.Dec(4) == "4";
    assert N.Dec(42) == N.Dec(4) + "2";
    assert N.IntText(42) == "42";
    N.IntLitOfText(42);
  }

  lemma BodyLowers()
    ensures S.SeqOk([BLOCK]) && SameLabelsSeq([None], [None], [BLOCK])
    ensures Lowered(PROGRAM, MAIN_FN) == Some(INS)
  {
    Parts();
    var a, b, labels := NamesOf(PROGRAM, MAIN_FN), BLOCK.body, [None] + [Some("out")];
    assert b[1..] == [LEAVE] && b[1..][1..] == [] && [BLOCK][1..] == [];
    assert S.PlainConds(ANSWER) && S.PlainConds(LEAVE);
    assert S.PlainCondsSeq(b[1..]);
    assert S.PlainCondsSeq(b);
    assert S.PlainConds(BLOCK);
    PlainCondsAgreeSeq([None], [BLOCK]);
    FortyTwo();
    assert ("$" + "out")[1..] == "out" && A.FindLabel(labels, "out") == Some(0);
    Leaves(a, labels, LEAVE.op, Br(0));
    Leaves(a, labels, ANSWER.op, P(Plain.Const(W32, 42)));
    SingleLowers(a, labels, b[1..], false);
    assert [L(P(Plain.Const(W32, 42)))] + [L(Br(0))] == INSIDE;
    assert S.LowerSeq(a, labels, b, false) == Some(INSIDE);
    SingleLowers(a, [None], [BLOCK], false);
  }

  lemma BodyFine()
    ensures FnFine(PROGRAM, MAIN_FN)
  {
    hide Lowered, AllTypes, TypeIndex, AllTypeNames, SameLabelsSeq, S.SeqOk, HeightSeq;
    Parts();
    TypeIs();
    BodyLowers();
    InsCope();
    assert BodyOf(PROGRAM, MAIN_FN) == INS;
    assert NamesFit(NamesOf(PROGRAM, MAIN_FN));
  }

  lemma InsCope()
    ensures Copes(INS)
  {
    assert INSIDE[1..] == [L(Br(0))] && INSIDE[1..][1..] == [] && INS[1..] == [];
    assert Short(INSIDE[0]) && Short(INSIDE[1]);
    assert ShortSeq(INSIDE[1..]);
    assert ShortSeq(INSIDE);
    assert DepthSeq(INSIDE[1..]) == 0;
    assert DepthSeq(INSIDE) == 0;
  }

  lemma CodeShort()
    ensures S.SeqOk(MAIN_FN.body) && |CodeOf(PROGRAM, MAIN_FN)| < 0x20
  {
    hide Lowered, FnFine, EncSeq, CodeOf, At, S.SeqOk, LenSeq;
    Parts();
    BodyFine();
    BodyLowers();
    CodeIsLowered(PROGRAM, MAIN_FN);
    AtWhole(EncSeq(INS));
    EncSeqSits(EncSeq(INS), 0, INS);
    InsShort();
  }

  lemma AtWhole(code: seq<byte>)
    ensures At(code, 0, code)
  {
    assert code[0..] == code;
  }

  lemma InsShort()
    ensures LenSeq(INS) < 0x20
  {
    assert INSIDE[1..] == [L(Br(0))] && INSIDE[1..][1..] == [] && INS[1..] == [];
    LebShort(42);
    LebShort(0);
    hide LebU, LebS;
    assert LenSeq(INSIDE[1..]) < 0x8;
    assert LenSeq(INSIDE) < 0x10;
  }

  lemma LebShort(v: nat)
    requires v < 0x40
    ensures |LebU(v)| == 1 && |LebS(v)| == 1
  {
  }

  /** The module the assembler makes of it. */
  lemma ModuleIs()
    ensures ToModule(PROGRAM)
      == ModuleDef([FuncType([], [TYPE_I32])], [], [FnDef(0, [], CodeOf(PROGRAM, MAIN_FN))], None, None, [],
      [Export(MAIN, 0x00, 0)], None, [], [])
  {
    hide CodeOf, AllTypes, TypeIndex;
    TypeIs();
    var d := ToModule(PROGRAM);
    assert TypeBytes([W32]) == [TYPE_I32] && TypeBytes([]) == [];
    assert d.types == [FuncType([], [TYPE_I32])];
    assert d.fns == [FnDef(0, [], CodeOf(PROGRAM, MAIN_FN))];
  }

  lemma ProgIs()
    ensures ProgOf(PROGRAM) == Prog([Some(Fn([], [W32], [], INS, false))], [], [([], [W32])], [])
    ensures ProgOk(ProgOf(PROGRAM)) && Startable(PROGRAM)
  {
    hide Lowered, AllTypes, SigOf;
    BodyLowers();
    TypeIs();
    var p := ProgOf(PROGRAM);
    assert FnOf(PROGRAM, MAIN_FN) == Fn([], [W32], [], INS, false);
    assert |p.fns| == 1 && p.fns[0] == Some(FnOf(PROGRAM, MAIN_FN));
    assert p.fns == [Some(Fn([], [W32], [], INS, false))];
    assert p.types == [([], [W32])];
    Checks(p, p.fns[0].value);
  }

  lemma Checks(p: Prog, fn: Fn)
    requires fn == Fn([], [W32], [], INS, false)
    ensures FnOk(p, fn)
  {
    var c := FnCtx(fn);
    var inside := Inside(c, [], false, [W32]);
    assert INSIDE[1..] == [L(Br(0))] && INSIDE[1..][1..] == [] && INS[1..] == [];
    CheckAnswer(p, inside);
    CheckLeave(p, inside);
    hide Inside, CheckLeaf, EndsIn, BranchOk;
    assert CheckSeq(p, inside, INSIDE[1..], [W32]) == Dead;
    assert CheckSeq(p, inside, INSIDE, []) == Dead;
    assert BodyOk(p, inside, INSIDE, [W32]);
    assert [] + [W32] == [W32] && BlockResults(TYPE_I32) == [W32];
    assert CheckOne(p, c, INS[0], []) == Live([W32]);
    assert CheckSeq(p, c, INS, []) == Live([W32]);
  }

  lemma CheckAnswer(p: Prog, c: Ctx)
    ensures CheckOne(p, c, INSIDE[0], []) == Live([W32])
  {
    assert Last<Width>([], 0) == [] && [] + [W32] == [W32];
  }

  lemma CheckLeave(p: Prog, c: Ctx)
    requires |c.labels| > 0 && c.labels[0].arity == [W32] && c.labels[0].clean
    ensures CheckOne(p, c, INSIDE[1], [W32]) == Dead
  {
    assert Last([W32], 1) == [W32];
  }

  lemma OneItem<T>(x: T, enc: T -> seq<byte>)
    ensures |EncList([x], enc)| == 1 + |enc(x)|
  {
    LebShort(1);
    assert [x][1..] == [] && EncVec<T>([], enc) == [];
  }

  lemma BytesShort(bs: seq<byte>)
    requires |bs| < 0x40
    ensures |EncBytes(bs)| == 1 + |bs|
  {
    LebShort(|bs|);
  }

  lemma BodyShort(f: FnDef)
    requires f.locals == [] && |f.code| < 0x20
    ensures |EncBody(f)| == |f.code| + 2 && |EncEntry(f)| == |f.code| + 3
  {
    LebShort(0);
    assert Clusters([]) == [] && EncVec([], EncCluster) == [];
    assert |EncLocals([])| == 1;
    BytesShort(EncBody(f));
  }

  lemma SectionsShort(d: ModuleDef, t: FuncType, f: FnDef, e: Export)
    requires d == ModuleDef([t], [], [f], None, None, [], [e], None, [], [])
    requires |t.params| + |t.results| < 0x20 && f.t == 0 && f.locals == [] && |f.code| < 0x20 && |e.name| < 0x20
      && e.index == 0
    ensures ChunksFit(SectionsOf(d)) && |EncModule(d)| <= 1024
  {
    hide EncVec, EncBytes, EncBody, LebU;
    LebShort(0);
    OneItem(t, EncType); BytesShort(t.params); BytesShort(t.results);
    var ts: seq<nat> := [0];
    assert TypeIndices(d.fns) == ts;
    OneItem<nat>(0, EncIndex);
    OneItem(e, EncExport); BytesShort(e.name);
    OneItem(f, EncEntry); BodyShort(f);
    hide EncList, EncEntry, EncType, EncExport, EncIndex;
    var a, b := Chunk(1, EncList(d.types, EncType)), Chunk(3, EncList(ts, EncIndex));
    var c, x := Chunk(7, EncList(d.exports, EncExport)), Chunk(10, EncList(d.fns, EncEntry));
    FourSections(d, a, b, c, x);
    FourShort(a, b, c, x);
  }

  lemma FourShort(a: Chunk, b: Chunk, c: Chunk, d: Chunk)
    requires |a.payload| < 0x80 && |b.payload| < 0x80 && |c.payload| < 0x80 && |d.payload| < 0x80
    ensures |EncVec([a, b, c, d], EncSection)| < 0x300
  {
    hide LebU;
    LebULength(|a.payload|, 2);
    LebULength(|b.payload|, 2);
    LebULength(|c.payload|, 2);
    LebULength(|d.payload|, 2);
    assert [a, b, c, d][1..] == [b, c, d] && [b, c, d][1..] == [c, d] && [c, d][1..] == [d] && [d][1..] == [];
    var none: seq<Chunk> := [];
    assert EncVec(none, EncSection) == [];
    assert |EncVec([d], EncSection)| == |EncSection(d)|;
    assert |EncVec([c, d], EncSection)| == |EncSection(c)| + |EncSection(d)|;
    assert |EncVec([b, c, d], EncSection)| == |EncSection(b)| + |EncVec([c, d], EncSection)|;
  }

  lemma ProgramFine()
    ensures Accepted(PROGRAM)
  {
    hide FnFine, CodeOf, SectionsOf, EncBody, ProgOf, NoMemoryProg, ToModule, ProgOk, Startable, AllTypes, EncVec;
    CodeShort();
    BodyFine();
    ModuleIs();
    ProgIs();
    TouchesNoMemory(ProgOf(PROGRAM));
    var d := ToModule(PROGRAM);
    SectionsShort(d, d.types[0], d.fns[0], d.exports[0]);
    BodyShort(d.fns[0]);
    ImportsNone(d.types);
    var ts := d.types[0].params + d.fns[0].locals;
    assert ts == [];
  }

  lemma TouchesNoMemory(p: Prog)
    requires p == Prog([Some(Fn([], [W32], [], INS, false))], [], [([], [W32])], [])
    ensures NoMemoryProg(p)
  {
    assert INSIDE[1..] == [L(Br(0))] && INSIDE[1..][1..] == [] && INS[1..] == [];
    assert NoMemorySeq(INSIDE[1..]);
    assert NoMemorySeq(INSIDE);
  }

  lemma ImportsNone(types: seq<FuncType>)
    ensures ImportInfos(types, []) == Some([])
  {
  }

  /** The standard's run of it. */
  lemma StdReturns(p: Prog, fuel: nat, st: Store)
    requires p == Prog([Some(Fn([], [W32], [], INS, false))], [], [([], [W32])], [])
    ensures EvalCall(p, fuel + 1, 0, st, []) == Normal(st, [Val(W32, 42)])
  {
    var callee := st.(locals := Last<Val>([], 0) + ZeroVals([]));
    assert INSIDE[1..] == [L(Br(0))] && INSIDE[1..][1..] == [] && INS[1..] == [];
    var v := [Val(W32, 42)];
    EvalAnswer(p, fuel, callee);
    assert Last(v, 1) == v && [] + v == v && Types([]) == [];
    hide EvalLeaf;
    assert EvalLeaf(p, fuel, Br(0), callee, v) == Jump(0, callee, v);
    assert EvalSeq(p, fuel, INSIDE[1..], callee, v) == Jump(0, callee, v);
    assert EvalSeq(p, fuel, INSIDE, callee, []) == Jump(0, callee, v);
    assert EvalOne(p, fuel, INS[0], callee, []) == Normal(callee, v);
    assert EvalSeq(p, fuel, INS, callee, []) == Normal(callee, v);
  }

  lemma EvalAnswer(p: Prog, fuel: nat, st: Store)
    ensures EvalOne(p, fuel, INSIDE[0], st, []) == Normal(st, [Val(W32, 42)])
    ensures EvalOne(p, fuel, INSIDE[1], st, [Val(W32, 42)]) == Jump(0, st, [Val(W32, 42)])
  {
    assert Types(Last<Val>([], 0)) == [] && AllFit([]);
    assert [] + [Val(W32, 42)] == [Val(W32, 42)];
  }

  /** The program meets every condition of the end-to-end theorem, so its file returns 42. */
  lemma ReturnsFortyTwo()
    ensures Accepted(PROGRAM)
    ensures FileResult(ReadIn(FileOf(PROGRAM))) == Some(Returned(TYPE_I32, 42))
  {
    hide FileOf, RunFile, Accepted, EvalCall, StdStore;
    ProgramFine();
    ProgIs();
    var p := ProgOf(PROGRAM);
    assert FindMain(PROGRAM.exports) == Some(0);
    StdReturns(p, 0, StdStore(PROGRAM, p.fns[0].value.locals));
    StdResultIs(PROGRAM, 0);
    ProgramResult(PROGRAM);
  }

  lemma CodeIs()
    ensures CodeOf(PROGRAM, MAIN_FN) == [0x02, 0x7F, 0x41, 0x2A, 0x0C, 0x00, 0x0B]
  {
    hide Lowered, FnFine, CodeOf, S.SeqOk;
    BodyFine();
    BodyLowers();
    CodeIsLowered(PROGRAM, MAIN_FN);
    InsBytes();
  }

  lemma InsBytes()
    ensures EncSeq(INS) == [0x02, 0x7F, 0x41, 0x2A, 0x0C, 0x00, 0x0B]
  {
    assert INSIDE[1..] == [L(Br(0))] && INSIDE[1..][1..] == [] && INS[1..] == [];
    F.Small(0);
    assert LebS(42) == [42];
    hide LebU, LebS;
    assert Enc(INSIDE[0]) == [0x41, 0x2A] && Enc(INSIDE[1]) == [0x0C, 0x00];
    assert EncSeq(INSIDE[1..]) == [0x0C, 0x00] + EncSeq([]) == [0x0C, 0x00];
    assert EncSeq(INSIDE) == [0x41, 0x2A] + [0x0C, 0x00];
    assert EncSeq(INS) == Enc(INS[0]) + EncSeq([]);
  }

  const FILE: seq<byte> :=
    F.PREAMBLE + ([0x01, 0x05, 0x01, 0x60, 0x00, 0x01, 0x7F] + ([0x03, 0x02, 0x01, 0x00]
    + ([0x07, 0x08, 0x01, 0x04, 0x6D, 0x61, 0x69, 0x6E, 0x00, 0x00]
    + [0x0A, 0x0B, 0x01, 0x09, 0x00, 0x02, 0x7F, 0x41, 0x2A, 0x0C, 0x00, 0x0B, 0x0B])))

  /** Its file is these bytes. */
  lemma FileIs()
    ensures FileOf(PROGRAM) == FILE
  {
    hide EncSection, EncVec, EncList, SectionsOf, CodeOf;
    ModuleIs();
    CodeIs();
    Parts4(ToModule(PROGRAM));
  }

  const TYPE: FuncType := FuncType([], [0x7F])

  const CODE: seq<byte> := [0x02, 0x7F, 0x41, 0x2A, 0x0C, 0x00, 0x0B]

  const MAIN_EXPORT: Export := Export([0x6D, 0x61, 0x69, 0x6E], 0x00, 0)

  lemma TypeAndIndex()
    ensures EncSection(Chunk(1, EncList([TYPE], EncType))) == [0x01, 0x05, 0x01, 0x60, 0x00, 0x01, 0x7F]
    ensures EncSection(Chunk(3, EncList<nat>([0], EncIndex))) == [0x03, 0x02, 0x01, 0x00]
  {
    hide EncSection, EncVec, EncList, EncBytes, LebU;
    F.Small(0);
    F.Counted([]); F.Counted([0x7F]);
    F.One(TYPE, EncType);
    F.One<nat>(0, EncIndex);
    F.Framed(1, EncList([TYPE], EncType));
    F.Framed(3, EncList<nat>([0], EncIndex));
  }

  lemma ExportAndCode(f: FnDef)
    requires f == FnDef(0, [], CODE)
    ensures EncSection(Chunk(7, EncList([MAIN_EXPORT], EncExport))) == [0x07, 0x08, 0x01, 0x04, 0x6D, 0x61, 0x69, 0x6E, 0x00, 0x00]
    ensures EncSection(Chunk(10, EncList([f], EncEntry)))
      == [0x0A, 0x0B, 0x01, 0x09, 0x00, 0x02, 0x7F, 0x41, 0x2A, 0x0C, 0x00, 0x0B, 0x0B]
  {
    hide EncSection, EncVec, EncList, EncBytes, LebU, EncLocals;
    F.Small(0);
    F.Counted(MAIN_EXPORT.name);
    F.One(MAIN_EXPORT, EncExport);
    NoLocals();
    F.Counted(EncBody(f));
    F.One(f, EncEntry);
    F.Framed(7, EncList([MAIN_EXPORT], EncExport));
    F.Framed(10, EncList([f], EncEntry));
  }

  lemma Parts4(d: ModuleDef)
    requires d == ModuleDef([TYPE], [], [FnDef(0, [], CODE)], None, None, [], [MAIN_EXPORT], None, [], [])
    ensures EncModule(d) == FILE
  {
    hide EncSection, EncVec, EncList, EncBytes, LebU, EncLocals;
    TypeAndIndex();
    ExportAndCode(d.fns[0]);
    var ts: seq<nat> := [0];
    assert TypeIndices(d.fns) == ts;
    var a, b := Chunk(1, EncList([TYPE], EncType)), Chunk(3, EncList(ts, EncIndex));
    var c, x := Chunk(7, EncList([MAIN_EXPORT], EncExport)), Chunk(10, EncList(d.fns, EncEntry));
    FourSections(d, a, b, c, x);
    F.Joined(x, []); F.Joined(c, [x]); F.Joined(b, [c, x]); F.Joined(a, [b, c, x]);
    F.NoVec();
    assert [x] + [] == [x] && [c] + [x] == [c, x] && [b] + [c, x] == [b, c, x] && [a] + [b, c, x] == [a, b, c, x];
  }

  lemma NoLocals()
    ensures EncLocals([]) == [0x00]
  {
    F.Small(0);
    assert Clusters([]) == [] && EncVec([], EncCluster) == [];
  }

  lemma FourSections(d: ModuleDef, a: Chunk, b: Chunk, c: Chunk, x: Chunk)
    requires |d.types| > 0 && d.imports == [] && |d.fns| == 1 && d.table == None && d.memory == None && d.globals == []
    requires |d.exports| == 1 && d.start == None && d.elems == [] && d.datas == []
    requires a == Chunk(1, EncList(d.types, EncType)) && b == Chunk(3, EncList(TypeIndices(d.fns), EncIndex))
    requires c == Chunk(7, EncList(d.exports, EncExport)) && x == Chunk(10, EncList(d.fns, EncEntry))
    ensures SectionsOf(d) == [a, b, c, x]
  {
    hide EncList;
    assert FromElems(d) == [x];
    assert FromExports(d) == [c, x];
    assert FromTable(d) == [c, x];
    assert FromFunctions(d) == [b] + FromTable(d) == [b, c, x];
    assert FromImports(d) == [b, c, x];
  }
}
