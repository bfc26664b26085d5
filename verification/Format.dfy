/** The file format in its own bytes: a module with every section, and what loading those bytes gives. */
module Format {
  import opened Bytes
  import opened Leb
  import opened Isa
  import opened Machine
  import opened Wasm
  import opened Layout
  import opened Sections
  import opened Loader
  import A = Assembler

  /** The value types of section 5.3.1 of the WebAssembly Core Specification 1.0, wherever they occur. */
  lemma ValueTypeBytes()
    ensures A.ValType("i32") == Some(0x7F) && A.ValType("i64") == Some(0x7E) && A.ValType("f32") == Some(0x7D)
      && A.ValType("f64") == Some(0x7C)
    ensures TypeByte(W32) == 0x7F && TypeByte(W64) == 0x7E
    ensures WidthOf(0x7F) == W32 && WidthOf(0x7E) == W64 && WidthOf(0x7D) == W32 && WidthOf(0x7C) == W64
    ensures TypeSize(0x7F) == 4 && TypeSize(0x7E) == 8 && TypeSize(0x7D) == 4 && TypeSize(0x7C) == 8
    ensures BlockResults(0x40) == [] && BlockResults(0x7F) == [W32] && BlockResults(0x7E) == [W64]
    ensures forall t: byte :: IsValueType(t) <==> t == 0x7F || t == 0x7E || t == 0x7D || t == 0x7C
  {
  }

  predicate Known(t: byte) { t == 0x7F || t == 0x7E || t == 0x7D || t == 0x7C || t == 0x40 }

  /** Which functions and imports the loader takes: of a type that is there, with at most 255 locals of known types. */
  lemma LoadableIs(types: seq<FuncType>, f: FnDef)
    ensures LoadableFn(types, f) <==> (
      && f.t < |types| && |types[f.t].params| + |f.locals| <= 255
      && (forall t :: t in types[f.t].params ==> Known(t)) && (forall t :: t in f.locals ==> Known(t)))
    ensures ImportInfo(types, f.t).Some? <==> (
      && f.t < |types| && |types[f.t].params| <= 255 && forall t :: t in types[f.t].params ==> Known(t))
  {
    if f.t < |types| {
      KnownTypes(types[f.t].params);
      KnownTypes(types[f.t].params + f.locals);
    }
  }

  lemma KnownTypes(ts: seq<byte>)
    ensures ValueTypes(ts) <==> forall t :: t in ts ==> Known(t)
  {
    if ValueTypes(ts) { forall t | t in ts ensures Known(t) { var i :| 0 <= i < |ts| && ts[i] == t; } }
    if forall t :: t in ts ==> Known(t) { forall i | 0 <= i < |ts| ensures IsValueType(ts[i]) || ts[i] == TYPE_VOID { assert Known(ts[i]); } }
  }

  // (type (func (param i32 i64) (result i64))) (type (func (result i32)))
  const TYPES := [FuncType([0x7F, 0x7E], [0x7E]), FuncType([], [0x7F])]

  // (import "e" "p" (func (type 1)))
  const IMPORTS := [Import([0x65], [0x70], 1)]

  // (func (type 0) (local i32 i32 i64) local.get 1)
  const FNS := [FnDef(0, [0x7F, 0x7F, 0x7E], [0x20, 0x01])]

  // (global (mut i32) (i32.const -1)) (global i64 (i64.const 64)) (global i32 (global.get 0))
  const GLOBALS := [Global(0x7F, true, I32(-1)), Global(0x7E, false, I64(64)), Global(0x7F, false, OfGlobal(0))]

  // (export "main" (func 1))
  const EXPORTS := [Export([0x6D, 0x61, 0x69, 0x6E], 0x00, 1)]

  /** A module with every section. */
  const ALL := ModuleDef(TYPES, IMPORTS, FNS, Some(Limits(2, Some(3))), Some(Limits(1, None)), GLOBALS, EXPORTS, Some(1),
    [Elem(1, [1])], [Data(2, [0x41])])

  const PREAMBLE: seq<byte> := [0x00, 0x61, 0x73, 0x6D, 0x01, 0x00, 0x00, 0x00]

  const TYPE_PART: seq<byte> := [0x01, 0x0B, 0x02, 0x60, 0x02, 0x7F, 0x7E, 0x01, 0x7E, 0x60, 0x00, 0x01, 0x7F]

  const IMPORT_PART: seq<byte> := [0x02, 0x07, 0x01, 0x01, 0x65, 0x01, 0x70, 0x00, 0x01]

  const FUNCTION_PART: seq<byte> := [0x03, 0x02, 0x01, 0x00]

  const TABLE_PART: seq<byte> := [0x04, 0x05, 0x01, 0x70, 0x01, 0x02, 0x03]

  const MEMORY_PART: seq<byte> := [0x05, 0x03, 0x01, 0x00, 0x01]

  const GLOBAL_PART: seq<byte> :=
    [0x06, 0x11, 0x03, 0x7F, 0x01, 0x41, 0x7F, 0x0B, 0x7E, 0x00, 0x42, 0xC0, 0x00, 0x0B, 0x7F, 0x00, 0x23, 0x00, 0x0B]

  const EXPORT_PART: seq<byte> := [0x07, 0x08, 0x01, 0x04, 0x6D, 0x61, 0x69, 0x6E, 0x00, 0x01]

  const START_PART: seq<byte> := [0x08, 0x01, 0x01]

  const ELEM_PART: seq<byte> := [0x09, 0x07, 0x01, 0x00, 0x41, 0x01, 0x0B, 0x01, 0x01]

  const CODE_PART: seq<byte> := [0x0A, 0x0A, 0x01, 0x08, 0x02, 0x02, 0x7F, 0x01, 0x7E, 0x20, 0x01, 0x0B]

  const DATA_PART: seq<byte> := [0x0B, 0x07, 0x01, 0x00, 0x41, 0x02, 0x0B, 0x01, 0x41]

  const FILE: seq<byte> :=
    PREAMBLE + (TYPE_PART + (IMPORT_PART + (FUNCTION_PART + (TABLE_PART + (MEMORY_PART + (GLOBAL_PART
    + (EXPORT_PART + (START_PART + (ELEM_PART + (CODE_PART + DATA_PART))))))))))

  lemma Small(n: nat)
    requires n < 0x40
    ensures LebU(n) == [n] && LebS(n) == [n]
  {
  }

  lemma One<T>(x: T, enc: T -> seq<byte>)
    ensures EncList([x], enc) == [0x01] + enc(x)
  {
    Small(1);
    assert [x][1..] == [] && EncVec<T>([], enc) == [];
    assert EncVec([x], enc) == enc(x) + [];
  }

  lemma Two<T>(x: T, y: T, enc: T -> seq<byte>)
    ensures EncList([x, y], enc) == [0x02] + (enc(x) + enc(y))
  {
    Small(2);
    assert [x, y][1..] == [y] && [y][1..] == [] && EncVec<T>([], enc) == [];
    assert EncVec([y], enc) == enc(y) + [];
    assert EncVec([x, y], enc) == enc(x) + EncVec([y], enc);
  }

  lemma Three<T>(x: T, y: T, z: T, enc: T -> seq<byte>)
    ensures EncList([x, y, z], enc) == [0x03] + (enc(x) + (enc(y) + enc(z)))
  {
    Small(3);
    assert [x, y, z][1..] == [y, z] && [y, z][1..] == [z] && [z][1..] == [] && EncVec<T>([], enc) == [];
    assert EncVec([z], enc) == enc(z) + [];
    assert EncVec([y, z], enc) == enc(y) + EncVec([z], enc);
  }

  lemma Counted(bs: seq<byte>)
    requires |bs| < 0x40
    ensures EncBytes(bs) == [|bs|] + bs
  {
    Small(|bs|);
  }

  lemma Framed(id: byte, payload: seq<byte>)
    requires |payload| < 0x40
    ensures EncSection(Chunk(id, payload)) == [id, |payload|] + payload
  {
    Counted(payload);
  }

  lemma TypePart()
    ensures EncSection(Chunk(1, EncList(TYPES, EncType))) == TYPE_PART
  {
    hide LebU, EncVec, EncList, EncBytes, EncSection;
    Counted([0x7F, 0x7E]); Counted([0x7E]); Counted([]); Counted([0x7F]);
    Two(TYPES[0], TYPES[1], EncType);
    assert EncType(TYPES[0]) == [0x60, 0x02, 0x7F, 0x7E, 0x01, 0x7E] && EncType(TYPES[1]) == [0x60, 0x00, 0x01, 0x7F];
    Framed(1, EncList(TYPES, EncType));
  }

  lemma ImportPart()
    ensures EncSection(Chunk(2, EncList(IMPORTS, EncImport))) == IMPORT_PART
  {
    hide LebU, EncVec, EncList, EncBytes, EncSection;
    Counted([0x65]); Counted([0x70]); Small(1);
    One(IMPORTS[0], EncImport);
    assert EncImport(IMPORTS[0]) == [0x01, 0x65, 0x01, 0x70, 0x00, 0x01];
    Framed(2, EncList(IMPORTS, EncImport));
  }

  lemma FunctionPart()
    ensures EncSection(Chunk(3, EncList(TypeIndices(FNS), EncIndex))) == FUNCTION_PART
  {
    hide LebU, EncVec, EncList, EncBytes, EncSection;
    Small(0);
    var ts: seq<nat> := [0];
    assert TypeIndices(FNS) == ts;
    One<nat>(0, EncIndex);
    Framed(3, EncList(ts, EncIndex));
  }

  lemma LimitParts()
    ensures EncSection(Chunk(4, EncTable(Limits(2, Some(3))))) == TABLE_PART
    ensures EncSection(Chunk(5, EncMemory(Limits(1, None)))) == MEMORY_PART
  {
    hide LebU, EncSection;
    Small(1); Small(2); Small(3);
    Framed(4, EncTable(Limits(2, Some(3))));
    Framed(5, EncMemory(Limits(1, None)));
  }

  lemma GlobalBytes()
    ensures EncGlobal(GLOBALS[0]) == [0x7F, 0x01, 0x41, 0x7F, 0x0B]
    ensures EncGlobal(GLOBALS[1]) == [0x7E, 0x00, 0x42, 0xC0, 0x00, 0x0B]
    ensures EncGlobal(GLOBALS[2]) == [0x7F, 0x00, 0x23, 0x00, 0x0B]
  {
    assert LebS(64) == [0xC0] + LebS(0);
    assert LebS(-1) == [0x7F] && LebS(64) == [0xC0, 0x00] && LebU(0) == [0x00];
    hide LebU, LebS;
    assert EncInit(I32(-1)) == [0x41, 0x7F] && EncInit(I64(64)) == [0x42, 0xC0, 0x00] && EncInit(OfGlobal(0)) == [0x23, 0x00];
  }

  lemma GlobalPart()
    ensures EncSection(Chunk(6, EncList(GLOBALS, EncGlobal))) == GLOBAL_PART
  {
    hide EncList, EncSection, EncGlobal;
    GlobalBytes();
    Three(GLOBALS[0], GLOBALS[1], GLOBALS[2], EncGlobal);
    Framed(6, EncList(GLOBALS, EncGlobal));
  }

  lemma ExportPart()
    ensures EncSection(Chunk(7, EncList(EXPORTS, EncExport))) == EXPORT_PART
    ensures EncSection(Chunk(8, EncIndex(1))) == START_PART
  {
    hide LebU, EncVec, EncList, EncBytes, EncSection;
    Small(1);
    Counted(EXPORTS[0].name);
    One(EXPORTS[0], EncExport);
    Framed(7, EncList(EXPORTS, EncExport));
    Framed(8, EncIndex(1));
  }

  lemma ElemPart()
    ensures EncSection(Chunk(9, EncList([Elem(1, [1])], EncElem))) == ELEM_PART
  {
    hide LebU, LebS, EncVec, EncList, EncSection;
    Small(0); Small(1);
    One<nat>(1, EncIndex);
    One(Elem(1, [1]), EncElem);
    assert EncElem(Elem(1, [1])) == [0x00, 0x41, 0x01, 0x0B, 0x01, 0x01];
    Framed(9, EncList([Elem(1, [1])], EncElem));
  }

  lemma LocalsAre()
    ensures EncLocals([0x7F, 0x7F, 0x7E]) == [0x02, 0x02, 0x7F, 0x01, 0x7E]
  {
    var ts: seq<byte> := [0x7F, 0x7F, 0x7E];
    NoClusters(ts[3..]);
    assert ts[2..] == [0x7E] && ts[2..][1..] == [];
    assert Clusters(ts[2..]) == [Cluster(1, 0x7E)] by { RunIs(ts[2..], 1); UnfoldClusters(ts[2..]); NoClusters([]); }
    RunIs(ts, 2);
    UnfoldClusters(ts);
    assert Clusters(ts) == [Cluster(2, 0x7F), Cluster(1, 0x7E)];
    hide LebU, EncList, Clusters;
    Small(1); Small(2);
    Two(Cluster(2, 0x7F), Cluster(1, 0x7E), EncCluster);
  }

  lemma CodePart()
    ensures EncSection(Chunk(10, EncList(FNS, EncEntry))) == CODE_PART
    ensures EncSection(Chunk(11, EncList([Data(2, [0x41])], EncData))) == DATA_PART
  {
    hide LebU, LebS, EncVec, EncList, EncSection, EncLocals, EncBytes;
    Small(2);
    LocalsAre();
    Counted(EncBody(FNS[0]));
    One(FNS[0], EncEntry);
    Framed(10, EncList(FNS, EncEntry));
    Counted([0x41]);
    One(Data(2, [0x41]), EncData);
    assert EncData(Data(2, [0x41])) == [0x00, 0x41, 0x02, 0x0B, 0x01, 0x41];
    Framed(11, EncList([Data(2, [0x41])], EncData));
  }

  // ----- the file -----

  lemma Sections11()
    ensures SectionsOf(ALL) == [
      Chunk(1, EncList(TYPES, EncType)), Chunk(2, EncList(IMPORTS, EncImport)),
      Chunk(3, EncList(TypeIndices(FNS), EncIndex)), Chunk(4, EncTable(Limits(2, Some(3)))),
      Chunk(5, EncMemory(Limits(1, None))), Chunk(6, EncList(GLOBALS, EncGlobal)), Chunk(7, EncList(EXPORTS, EncExport)),
      Chunk(8, EncIndex(1)), Chunk(9, EncList([Elem(1, [1])], EncElem)), Chunk(10, EncList(FNS, EncEntry)),
      Chunk(11, EncList([Data(2, [0x41])], EncData))]
  {
    hide EncList, EncTable, EncMemory, EncIndex;
    assert FromCode(ALL) == [Chunk(10, EncList(FNS, EncEntry)), Chunk(11, EncList([Data(2, [0x41])], EncData))];
    assert FromElems(ALL) == [Chunk(9, EncList([Elem(1, [1])], EncElem))] + FromCode(ALL);
    assert FromStart(ALL) == [Chunk(8, EncIndex(1))] + FromElems(ALL);
    assert FromExports(ALL) == [Chunk(7, EncList(EXPORTS, EncExport))] + FromStart(ALL);
    assert FromGlobals(ALL) == [Chunk(6, EncList(GLOBALS, EncGlobal))] + FromExports(ALL);
    assert FromMemory(ALL) == [Chunk(5, EncMemory(Limits(1, None)))] + FromGlobals(ALL);
    assert FromTable(ALL) == [Chunk(4, EncTable(Limits(2, Some(3))))] + FromMemory(ALL);
    assert FromFunctions(ALL) == [Chunk(3, EncList(TypeIndices(FNS), EncIndex))] + FromTable(ALL);
    assert FromImports(ALL) == [Chunk(2, EncList(IMPORTS, EncImport))] + FromFunctions(ALL);
  }

  lemma Joined(c: Chunk, rest: seq<Chunk>)
    ensures EncVec([c] + rest, EncSection) == EncSection(c) + EncVec(rest, EncSection)
  {
    assert ([c] + rest)[1..] == rest;
  }

  /** A module with every section, as the writer writes it: these bytes. */
  lemma FileIs()
    ensures EncModule(ALL) == FILE
  {
    hide EncSection, EncVec, EncList, EncTable, EncMemory, EncIndex, SectionsOf;
    Sections11();
    var s := SectionsOf(ALL);
    TypePart(); ImportPart(); FunctionPart(); LimitParts(); GlobalPart(); ExportPart(); ElemPart(); CodePart();
    var c10 := [s[10]];
    Joined(s[10], []);
    assert [s[10]] + [] == c10 && EncVec<Chunk>([], EncSection) == [] by { NoVec(); }
    var c9 := [s[9]] + c10; Joined(s[9], c10);
    var c8 := [s[8]] + c9; Joined(s[8], c9);
    var c7 := [s[7]] + c8; Joined(s[7], c8);
    var c6 := [s[6]] + c7; Joined(s[6], c7);
    var c5 := [s[5]] + c6; Joined(s[5], c6);
    var c4 := [s[4]] + c5; Joined(s[4], c5);
    var c3 := [s[3]] + c4; Joined(s[3], c4);
    var c2 := [s[2]] + c3; Joined(s[2], c3);
    var c1 := [s[1]] + c2; Joined(s[1], c2);
    Joined(s[0], c1);
    assert [s[0]] + c1 == s;
    assert DATA_PART + [] == DATA_PART;
  }

  lemma NoVec()
    ensures EncVec<Chunk>([], EncSection) == []
  {
  }

  lemma PayloadShort(c: Chunk)
    ensures |c.payload| < |EncSection(c)|
  {
    hide LebU;
  }

  lemma PartsShort()
    ensures ChunksFit(SectionsOf(ALL))
  {
    hide EncSection, EncVec, EncList, EncTable, EncMemory, EncIndex, SectionsOf;
    Sections11();
    TypePart(); ImportPart(); FunctionPart(); LimitParts(); GlobalPart(); ExportPart(); ElemPart(); CodePart();
    var s := SectionsOf(ALL);
    forall i | 0 <= i < |s| ensures |s[i].payload| < 0x8000_0000 {
      PayloadShort(s[i]);
      assert |EncSection(s[i])| <= 20;
    }
  }

  lemma AllFits()
    ensures Fits32(ALL) && Loadable(ALL)
    ensures ImportInfos(TYPES, IMPORTS) == Some([FnInfo(true, [], [0x7F], 0, 0, [0])])
    ensures PrefixSums([0x7F, 0x7E, 0x7F, 0x7F, 0x7E]) == [0, 4, 12, 16, 20, 28]
  {
    hide SectionsOf, EncBody, EncSection;
    PartsShort();
    BodyIs();
    Offsets();
    assert IMPORTS[1..] == [] && ImportInfos(TYPES, []) == Some([]);
    assert PrefixSums([]) == [0];
    assert ImportInfo(TYPES, 1) == Some(FnInfo(true, [], [0x7F], 0, 0, [0]));
    assert [FnInfo(true, [], [0x7F], 0, 0, [0])] + [] == [FnInfo(true, [], [0x7F], 0, 0, [0])];
    assert TYPES[0].params + FNS[0].locals == [0x7F, 0x7E, 0x7F, 0x7F, 0x7E];
  }

  lemma BodyIs()
    ensures EncBody(FNS[0]) == [0x02, 0x02, 0x7F, 0x01, 0x7E, 0x20, 0x01, 0x0B]
  {
    hide EncLocals;
    LocalsAre();
  }

  lemma SizeSnoc(ts: seq<byte>, t: byte)
    ensures TypesSize(ts + [t]) == TypesSize(ts) + TypeSize(t)
  {
    if ts == [] {
      assert [] + [t] == [t] && [t][1..] == [];
    } else {
      SizeSnoc(ts[1..], t);
      assert (ts + [t])[1..] == ts[1..] + [t];
    }
  }

  lemma Offsets()
    ensures PrefixSums([0x7F, 0x7E, 0x7F, 0x7F, 0x7E]) == [0, 4, 12, 16, 20, 28]
  {
    hide TypesSize;
    var ts: seq<byte> := [0x7F, 0x7E, 0x7F, 0x7F, 0x7E];
    assert ts[..0] == [] && ts[..1] == ts[..0] + [ts[0]] && ts[..2] == ts[..1] + [ts[1]] && ts[..3] == ts[..2] + [ts[2]]
      && ts[..4] == ts[..3] + [ts[3]] && ts[..5] == ts[..4] + [ts[4]];
    SizeSnoc(ts[..0], ts[0]); SizeSnoc(ts[..1], ts[1]); SizeSnoc(ts[..2], ts[2]); SizeSnoc(ts[..3], ts[3]);
    SizeSnoc(ts[..4], ts[4]);
    NoSize();
  }

  lemma NoSize()
    ensures TypesSize([]) == 0
  {
  }

  /** What loading these bytes gives. */
  lemma FileLoads()
    ensures LoadFile(FILE).Some?
    ensures var l := LoadFile(FILE).value;
      && l.types == [FuncType([0x7F, 0x7E], [0x7E]), FuncType([], [0x7F])] && l.imports == [Import([0x65], [0x70], 1)]
      && l.table == Some(Limits(2, Some(3))) && l.memory == Some(Limits(1, None))
      && l.globals == [LoadedGlobal(0x7F, true, 0xFFFF_FFFF), LoadedGlobal(0x7E, false, 64), LoadedGlobal(0x7F, false, 0)]
      && l.exports == [Export([0x6D, 0x61, 0x69, 0x6E], 0x00, 1)] && l.start == Some(1) && l.elems == [Elem(1, [1])]
      && l.datas == [Data(2, [0x41])]
      && |l.fns| == 2 && l.fns[0].isImport && l.fns[0].params == [] && l.fns[0].results == [0x7F] && l.fns[0].offsets == [0]
      && !l.fns[1].isImport && l.fns[1].params == [0x7F, 0x7E] && l.fns[1].results == [0x7E] && l.fns[1].size == 3
      && At(FILE, l.fns[1].begin, [0x20, 0x01, 0x0B]) && l.fns[1].offsets == [0, 4, 12, 16, 20, 28]
  {
    hide LoadFile, EncModule, SectionsOf, EncList, At, Fits32, Loadable, PrefixSums, ImportInfos, FILE;
    FileIs();
    AllFits();
    LoadOfModule(ALL);
    var l := LoadFile(FILE).value;
    assert l.fns[0] == l.fns[..1][0];
    assert Describes(FILE, TYPES, l.fns[1], FNS[0]);
    assert TYPES[0].params + FNS[0].locals == [0x7F, 0x7E, 0x7F, 0x7F, 0x7E];
    assert FNS[0].code + [OP_END] == [0x20, 0x01, 0x0B];
  }
}
