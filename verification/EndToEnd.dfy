/**
 From a program as its author writes it to what running its file returns: the assembler, the module format,
 the loader and the interpreter together mean what the standard says.
 */
module EndToEnd {
  import opened Bytes
  import opened Leb
  import opened Isa
  import opened Alu
  import opened Blocks
  import opened Machine
  import opened Wasm
  import opened Discipline
  import opened Layout
  import opened Simulation
  import opened Preservation
  import opened Sections
  import opened Loader
  import opened Program
  import opened Instance
  import opened Scoping
  import opened Fuel
  import C = Control
  import E = Emission
  import A = Assembler
  import S = Source
  import T = TypeTable
  import W = Writer

  // ----- programs -----

  datatype SrcType = SrcType(params: seq<Width>, results: seq<Width>)

  /** How a function or an import gives its type: by reference to a declared one, or else inline. */
  datatype SrcUse = SrcUse(ref: Option<S.Ref>, sig: SrcType)

  datatype SrcImport = SrcImport(from: seq<byte>, name: seq<byte>, use: SrcUse)

  /** A function: its type, its locals, the names of parameters and locals, its body. junk: see Wasm.Fn. */
  datatype SrcFn = SrcFn(use: SrcUse, locals: seq<Width>, names: seq<Option<string>>, body: seq<S.Ast>, junk: bool)

  datatype SrcGlobal = SrcGlobal(w: Width, mutable: bool, v: int)

  datatype Src = Src(
    types: seq<SrcType>,
    imports: seq<SrcImport>,
    fns: seq<SrcFn>,
    table: Option<Limits>,
    memory: Option<Limits>,
    globals: seq<SrcGlobal>,
    exports: seq<Export>,
    start: Option<nat>,
    elems: seq<Elem>,
    typeNames: seq<Option<string>>,
    fnNames: seq<Option<string>>,
    globalNames: seq<Option<string>>)

  // ----- types -----

  /** The declared type a reference stands for; Source.ResolvesIff says that it is the one so named or numbered. */
  function Declared(s: Src, r: S.Ref): Option<nat> { A.ResolveName(s.typeNames, S.RefText(r)) }

  predicate UseFine(s: Src, u: SrcUse)
  {
    match u.ref
    case None => true
    case Some(r) =>
      && S.RefOk(r) && Declared(s, r).Some? && Declared(s, r).value < |s.types|
      && (u.sig == SrcType([], []) || u.sig == s.types[Declared(s, r).value])
  }

  /** The type of a use. */
  function SigOf(s: Src, u: SrcUse): SrcType
  {
    match u.ref
    case None => u.sig
    case Some(r) =>
      (match Declared(s, r) case Some(i) => if i < |s.types| then s.types[i] else u.sig case None => u.sig)
  }

  /** The uses in the module's order, imports first. */
  function UsesOf(s: Src): (r: seq<SrcUse>)
    ensures |r| == |s.imports| + |s.fns|
  {
    seq(|s.imports| + |s.fns|, i requires 0 <= i < |s.imports| + |s.fns| =>
      if i < |s.imports| then s.imports[i].use else s.fns[i - |s.imports|].use)
  }

  function Inline(us: seq<SrcUse>): (r: seq<Option<SrcType>>)
    ensures |r| == |us|
  {
    seq(|us|, i requires 0 <= i < |us| => if us[i].ref.None? then Some(us[i].sig) else None)
  }

  /** The module's types: the declared ones, then those given inline that are new. */
  function AllTypes(s: Src): seq<SrcType> { T.Inserted(s.types, Inline(UsesOf(s))) }

  function AllTypeNames(s: Src): seq<Option<string>>
  {
    s.typeNames + seq(if |AllTypes(s)| < |s.types| then 0 else |AllTypes(s)| - |s.types|, i => None)
  }

  function TypeDef(t: SrcType): FuncType { FuncType(TypeBytes(t.params), TypeBytes(t.results)) }

  function TypeDefs(ts: seq<SrcType>): (r: seq<FuncType>)
    ensures |r| == |ts|
  {
    seq(|ts|, i requires 0 <= i < |ts| => TypeDef(ts[i]))
  }

  /** The number of a use's type. */
  function TypeIndex(s: Src, u: SrcUse): nat
  {
    match u.ref
    case Some(r) => (match Declared(s, r) case Some(i) => i case None => 0)
    case None => (match T.Find(TypeDefs(AllTypes(s)), TypeDef(u.sig)) case Some(i) => i case None => 0)
  }

  // ----- bodies -----

  function NamesOf(s: Src, f: SrcFn): A.Names { A.Names(s.fnNames, s.globalNames, AllTypeNames(s), f.names) }

  /** A body with its names resolved as section 6.5 of the WebAssembly Core Specification 1.0 resolves them. */
  ghost function Lowered(s: Src, f: SrcFn): Option<seq<Ins>>
  {
    if S.SeqOk(f.body) then S.LowerSeq(NamesOf(s, f), [None], f.body, false) else None
  }

  ghost function BodyOf(s: Src, f: SrcFn): seq<Ins>
  {
    match Lowered(s, f) case Some(ins) => ins case None => []
  }

  /** Nesting and constants that read_block copes with: at most 256 deep, no long i64 constant inside a construct. */
  predicate Copes(ins: seq<Ins>) { DepthSeq(ins) <= 256 && ShortInside(ins) }

  predicate ShortInside(ins: seq<Ins>)
    decreases ins
  {
    ins == [] || (ShortOne(ins[0]) && ShortInside(ins[1..]))
  }

  predicate ShortOne(i: Ins)
    decreases i
  {
    match i
    case L(_) => true
    case Block(_, _, body) => ShortSeq(body)
    case If(_, thn, els) => ShortSeq(thn) && ShortSeq(els)
  }

  predicate ShortSeq(ins: seq<Ins>)
    decreases ins
  {
    ins == [] || (Short(ins[0]) && ShortSeq(ins[1..]))
  }

  predicate Short(i: Ins)
    decreases i
  {
    match i
    case L(l) => l.P? && l.p.Const? ==> -0x4_0000_0000 <= l.p.v < 0x4_0000_0000
    case Block(_, _, body) => ShortSeq(body)
    case If(_, thn, els) => ShortSeq(thn) && ShortSeq(els)
  }

  /**
   A function this chain carries: its type is given properly, its names are unique and resolve, no if condition
   branches by name to a label that the assembler counts differently there, no operand is dropped, and the
   interpreter's scan copes with the body.
   */
  ghost predicate FnFine(s: Src, f: SrcFn)
  {
    && UseFine(s, f.use) && A.Unique(f.names)
    && S.SeqOk(f.body) && NamesFit(NamesOf(s, f)) && 1 + HeightSeq(f.body) <= 0x7FFF_FFFF
    && SameLabelsSeq([None], [None], f.body) && Lowered(s, f).Some? && Copes(BodyOf(s, f))
  }

  predicate GlobalFine(g: SrcGlobal)
  {
    if g.w == W32 then -0x8000_0000 <= g.v < 0x8000_0000 else -0x8000_0000_0000_0000 <= g.v < 0x8000_0000_0000_0000
  }

  // ----- what the assembler makes of a program -----

  function GlobalDef(g: SrcGlobal): Global { Global(TypeByte(g.w), g.mutable, if g.w == W32 then I32(g.v) else I64(g.v)) }

  /** The bytes emit_seq writes for a function's folded body. */
  ghost function CodeOf(s: Src, f: SrcFn): seq<byte>
  {
    if S.SeqOk(f.body) then (match FoldedCode(NamesOf(s, f), [None], f.body) case Some(code) => code case None => []) else []
  }

  function ImportDef(s: Src, x: SrcImport): Import { Import(x.from, x.name, TypeIndex(s, x.use)) }

  ghost function DefOf(s: Src, f: SrcFn): FnDef { FnDef(TypeIndex(s, f.use), TypeBytes(f.locals), CodeOf(s, f)) }

  ghost function ToModule(s: Src): ModuleDef
  {
    ModuleDef(
      TypeDefs(AllTypes(s)),
      seq(|s.imports|, i requires 0 <= i < |s.imports| => ImportDef(s, s.imports[i])),
      seq(|s.fns|, i requires 0 <= i < |s.fns| => DefOf(s, s.fns[i])),
      s.table, s.memory,
      seq(|s.globals|, i requires 0 <= i < |s.globals| => GlobalDef(s.globals[i])),
      s.exports, s.start, s.elems, [])
  }

  ghost function FileOf(s: Src): seq<byte> { EncModule(ToModule(s)) }

  /** The type declarations, as the assembler's table gets them. */
  function Decls(s: Src): (r: seq<T.Decl>)
    ensures |r| == |s.types|
  {
    seq(|s.types|, i requires 0 <= i < |s.types| => T.Decl(if i < |s.typeNames| then s.typeNames[i] else None, TypeDef(s.types[i])))
  }

  // ----- what the standard makes of it -----

  ghost function FnOf(s: Src, f: SrcFn): Fn
  {
    Fn(SigOf(s, f.use).params, SigOf(s, f.use).results, f.locals, BodyOf(s, f), f.junk)
  }

  ghost function ProgOf(s: Src): Prog
  {
    Prog(
      seq(|s.imports| + |s.fns|, i requires 0 <= i < |s.imports| + |s.fns| =>
        if i < |s.imports| then None else Some(FnOf(s, s.fns[i - |s.imports|]))),
      seq(|s.globals|, i requires 0 <= i < |s.globals| => s.globals[i].w),
      seq(|AllTypes(s)|, i requires 0 <= i < |AllTypes(s)| => (AllTypes(s)[i].params, AllTypes(s)[i].results)),
      match StdTable(s.table, s.elems) case Some(t) => t case None => [])
  }

  ghost function BodiesOf(s: Src): seq<seq<Ins>>
  {
    seq(|s.imports| + |s.fns|, i requires 0 <= i < |s.imports| + |s.fns| =>
      if i < |s.imports| then [] else BodyOf(s, s.fns[i - |s.imports|]))
  }

  // ----- conditions -----

  /** Names, types and numbers are in order, and the program starts as the standard starts it. */
  ghost predicate Fine(s: Src)
  {
    && (forall i :: 0 <= i < |s.fns| ==> FnFine(s, s.fns[i]))
    && (forall i :: 0 <= i < |s.imports| ==> UseFine(s, s.imports[i].use))
    && (forall i :: 0 <= i < |s.globals| ==> GlobalFine(s.globals[i]))
    && |s.typeNames| == |s.types| && T.AllDifferent(Decls(s))
    && A.Unique(s.typeNames) && A.Unique(s.fnNames) && A.Unique(s.globalNames)
    && Fits32(ToModule(s)) && s.fns != [] && Loadable(ToModule(s)) && Startup(s)
  }

  /** What the program starts with is what the standard starts it with; see Instance for why each part is needed. */
  ghost predicate Startup(s: Src)
  {
    && SegmentsFit(if s.table.Some? then s.table.value.min else 0, s.elems) && Named(s.elems)
    && match s.memory case Some(l) => Provided(l) case None => NoMemoryProg(ProgOf(s))
  }

  /** Main takes nothing and returns one value; the start function, if any, takes nothing. */
  ghost predicate Startable(s: Src)
  {
    var p, main := ProgOf(s), FindMain(s.exports);
    && main.Some? && main.value < |p.fns| && p.fns[main.value].Some?
    && p.fns[main.value].value.params == [] && |p.fns[main.value].value.results| == 1
    && (s.start.Some? ==> s.start.value < |p.fns| && p.fns[s.start.value].Some? && p.fns[s.start.value].value.params == [])
  }

  /** All that the theorem about a program asks of it: tests on its text alone. */
  ghost predicate Accepted(s: Src)
  {
    Fine(s) && ProgOk(ProgOf(s)) && Startable(s) && |FileOf(s)| <= 1024
  }

  // ----- bodies in place -----

  lemma {:induction false} ShortIsScannable(ins: seq<Ins>)
    requires InRangeSeq(ins) && ShortSeq(ins)
    ensures ScannableSeq(ins)
    decreases ins, 1
  {
    if ins != [] {
      ShortOneIsScannable(ins[0]);
      ShortIsScannable(ins[1..]);
    }
  }

  lemma {:induction false} ShortOneIsScannable(i: Ins)
    requires InRange(i) && Short(i)
    ensures Scannable(i)
    decreases i, 0
  {
    match i
    case L(_) =>
    case Block(_, _, body) => ShortIsScannable(body);
    case If(_, thn, els) => ShortIsScannable(thn); ShortIsScannable(els);
  }

  lemma {:induction false} CopesIsWell(ins: seq<Ins>)
    requires InRangeSeq(ins) && Copes(ins)
    ensures C.WellSeq(ins)
    decreases ins
  {
    hide InRange, ShortOne, Depth, C.Well;
    if ins != [] {
      CopesIsWellOne(ins[0]);
      CopesIsWell(ins[1..]);
    }
  }

  lemma CopesIsWellOne(i: Ins)
    requires InRange(i) && ShortOne(i) && Depth(i) <= 256
    ensures C.Well(i)
  {
    match i
    case L(_) =>
    case Block(_, _, body) => ShortIsScannable(body);
    case If(_, thn, els) => ShortIsScannable(thn); ShortIsScannable(els);
  }

  /** A function's emitted code is the encoding of its resolved body, and the interpreter copes with it. */
  lemma CodeIsLowered(s: Src, f: SrcFn)
    requires FnFine(s, f)
    ensures CodeOf(s, f) == EncSeq(BodyOf(s, f)) && C.WellSeq(BodyOf(s, f))
  {
    hide FoldedCode, S.LowerSeq, DepthSeq, SameLabelsSeq;
    FoldedIsLowered(NamesOf(s, f), [None], f.body);
    SameSeqMeans(NamesOf(s, f), [None], [None], f.body);
    LowerSeqInRange(NamesOf(s, f), [None], f.body, false);
    CopesIsWell(BodyOf(s, f));
  }

  /** The loader's offsets are the prefix sums of the sizes of the parameters and locals. */
  lemma PrefixSumsAre(params: seq<Width>, locals: seq<Width>)
    ensures PrefixSums(TypeBytes(params) + TypeBytes(locals)) == OffsetsOf(params + locals)
  {
    var ts := params + locals;
    assert TypeBytes(params) + TypeBytes(locals) == TypeBytes(ts);
    forall i | 0 <= i <= |ts| ensures TypesSize(TypeBytes(ts)[..i]) == WidthsSize(ts[..i]) {
      assert TypeBytes(ts)[..i] == TypeBytes(ts[..i]);
      TypesSizeOfBytes(ts[..i]);
    }
  }

  lemma FnInPlace(s: Src, f: SrcFn, m: Module, k: nat, types: seq<FuncType>, d: FnDef)
    requires FnFine(s, f) && d == DefOf(s, f) && d.t < |types| && types[d.t] == TypeDef(SigOf(s, f.use))
    requires k < |m.fns| && Describes(m.code, types, m.fns[k], d)
    ensures C.LinkedFn(m, k, BodyOf(s, f))
    ensures ImplementsFn(m.fns[k], BodyOf(s, f), Some(FnOf(s, f)))
    ensures m.fns[k].results == TypeBytes(SigOf(s, f.use).results)
  {
    hide At, CodeOf, BodyOf, PrefixSums, OffsetsOf, C.WellSeq, SitsSeq, SigOf, TypeIndex;
    CodeIsLowered(s, f);
    PrefixSumsAre(SigOf(s, f.use).params, f.locals);
    var ins, info := BodyOf(s, f), m.fns[k];
    AtConcat(m.code, info.begin, EncSeq(ins), [OP_END]);
    EncSeqSits(m.code, info.begin, ins);
    var last := info.begin + |EncSeq(ins)|;
    ByteAt(m.code, last, OP_END);
  }

  lemma ByteAt(code: seq<byte>, at: nat, b: byte)
    requires At(code, at, [b])
    ensures at < |code| && code[at] == b
  {
    AtBytes(code, at, [b]);
  }

  // ----- the loaded machine implements the program -----

  /** The result types of function k; none for an import. */
  function ResultsOf(s: Src, k: nat): seq<Width>
  {
    if |s.imports| <= k < |s.imports| + |s.fns| then SigOf(s, s.fns[k - |s.imports|].use).results else []
  }

  lemma FileLoads(s: Src) returns (l: Loaded)
    requires Fine(s)
    ensures LoadFile(FileOf(s)) == Some(l) && Reflects(FileOf(s), l, ToModule(s)) && |l.fns| == |s.imports| + |s.fns|
    ensures l.exports == s.exports && l.start == s.start && l.table == s.table && l.memory == s.memory
      && l.elems == s.elems
    ensures l.globals == LoadGlobals(ToModule(s).globals)
  {
    hide LoadFile, EncModule, Loadable, Fits32;
    LoadOfModule(ToModule(s));
    l := LoadFile(FileOf(s)).value;
  }

  lemma {:induction false} ImportInfosAreImports(types: seq<FuncType>, imports: seq<Import>, i: nat)
    requires ImportInfos(types, imports).Some? && i < |imports|
    ensures i < |ImportInfos(types, imports).value| && ImportInfos(types, imports).value[i].isImport
  {
    if i > 0 { ImportInfosAreImports(types, imports[1..], i - 1); }
  }

  lemma FunctionsImplement(s: Src, l: Loaded, m: Module, k: nat)
    requires Fine(s) && Reflects(FileOf(s), l, ToModule(s)) && m.code == FileOf(s) && m.fns == l.fns
      && k < |s.imports| + |s.fns|
    ensures k < |m.fns| && ImplementsFn(m.fns[k], BodiesOf(s)[k], ProgOf(s).fns[k])
    ensures !m.fns[k].isImport ==> C.LinkedFn(m, k, BodiesOf(s)[k])
    ensures k >= |s.imports| ==> !m.fns[k].isImport && m.fns[k].results == TypeBytes(ResultsOf(s, k))
  {
    hide EncModule, Describes, FnFine, ImplementsFn, C.LinkedFn, ImportInfos, Fits32, Loadable, FnOf, BodyOf, CodeOf,
      AllTypes, TypeIndex, SigOf, A.Unique, Startup;
    var d := ToModule(s);
    if k < |s.imports| {
      ImportInfosAreImports(d.types, d.imports, k);
      assert m.fns[k] == l.fns[..|d.imports|][k];
      ImportImplements(m.fns[k], BodiesOf(s)[k]);
    } else {
      var i := k - |s.imports|;
      var f := s.fns[i];
      assert FnFine(s, f);
      assert m.fns[k] == l.fns[|d.imports| + i];
      FnTypeIs(s, i);
      FnInPlace(s, f, m, k, d.types, d.fns[i]);
      NotImport(m.code, d.types, m.fns[k], d.fns[i]);
    }
  }

  /** The number of a use is that of its type, whether it refers to a declared one or gives it inline. */
  lemma UseTypeIs(s: Src, k: nat)
    requires k < |UsesOf(s)| && UseFine(s, UsesOf(s)[k])
    ensures var u, ts := UsesOf(s)[k], AllTypes(s);
      TypeIndex(s, u) < |ts| && TypeDefs(ts)[TypeIndex(s, u)] == TypeDef(SigOf(s, u))
  {
    hide Declared;
    var u, ts := UsesOf(s)[k], AllTypes(s);
    T.InsertedHas(s.types, Inline(UsesOf(s)));
    if u.ref.None? {
      assert Inline(UsesOf(s))[k] == Some(u.sig);
      var i :| 0 <= i < |ts| && ts[i] == u.sig;
      assert TypeDefs(ts)[i] == TypeDef(u.sig);
    }
  }

  lemma FnTypeIs(s: Src, i: nat)
    requires i < |s.fns| && FnFine(s, s.fns[i])
    ensures var f, ts := s.fns[i], AllTypes(s);
      TypeIndex(s, f.use) < |ts| && TypeDefs(ts)[TypeIndex(s, f.use)] == TypeDef(SigOf(s, f.use))
  {
    hide TypeIndex, AllTypes, SigOf;
    assert UsesOf(s)[|s.imports| + i] == s.fns[i].use;
    UseTypeIs(s, |s.imports| + i);
  }

  lemma NotImport(file: seq<byte>, types: seq<FuncType>, info: FnInfo, f: FnDef)
    requires Describes(file, types, info, f)
    ensures !info.isImport
  {
  }

  lemma ImportImplements(info: FnInfo, body: seq<Ins>)
    requires info.isImport
    ensures ImplementsFn(info, body, None)
  {
  }

  lemma WidthOfType(w: Width)
    ensures WidthOf(TypeByte(w)) == w
  {
  }

  /** Loading the file gives a machine that implements the program, with each function's code in place. */
  lemma MachineImplements(s: Src) returns (l: Loaded)
    requires Fine(s)
    ensures LoadFile(FileOf(s)) == Some(l) && Reflects(FileOf(s), l, ToModule(s))
    ensures l.exports == s.exports && l.start == s.start && l.memory == s.memory
      && l.globals == LoadGlobals(ToModule(s).globals)
    ensures var m := MachineOf(FileOf(s), l); C.Linked(m, BodiesOf(s)) && Implements(m, BodiesOf(s), ProgOf(s))
    ensures |l.fns| == |s.imports| + |s.fns|
    ensures forall k :: |s.imports| <= k < |l.fns| ==> !l.fns[k].isImport && l.fns[k].results == TypeBytes(ResultsOf(s, k))
  {
    hide LoadFile, EncModule, Reflects, Loadable, Fits32, ImplementsFn, C.LinkedFn, BodyOf, FnOf, FnFine, CodeOf,
      TableOf, StdTable, NoMemoryProg, T.AllDifferent, AllTypes, TypeIndex, SigOf, A.Unique;
    l := FileLoads(s);
    var m := MachineOf(FileOf(s), l);
    TableIff(l);
    forall k | 0 <= k < |m.fns|
      ensures ImplementsFn(m.fns[k], BodiesOf(s)[k], ProgOf(s).fns[k])
        && (!m.fns[k].isImport ==> C.LinkedFn(m, k, BodiesOf(s)[k]))
      ensures k >= |s.imports| ==> !m.fns[k].isImport && m.fns[k].results == TypeBytes(ResultsOf(s, k))
    {
      FunctionsImplement(s, l, m, k);
    }
    forall i | 0 <= i < |s.globals| ensures WidthOf(m.gtypes[i]) == s.globals[i].w {
      WidthOfType(s.globals[i].w);
    }
  }

  // ----- runs -----

  /** A context that allows leftovers: the outside of a call. */
  function Outside(locals: seq<Width>): Ctx { Ctx(locals, [Label([], false, true, true)], true) }

  /** What the program's run does, seen from outside: its outcome, and whether the interpreter's run agrees. */
  ghost predicate CallAgrees(m: Module, locals: seq<Width>, r: Res, o: Outcome)
  {
    match o
    case Normal(st, vs) =>
      && r.End? && r.s.jump == 0 && Holds(m, r.s, st, locals) && AllFit(vs)
      && Above([], r.s.stack, vs, false)
    case Trap => r == Fault
    case NoFuel => r == OutOfFuel
    case Deviant => true
    case _ => false
  }

  /**
   Calls: on a loaded program that obeys the discipline, call_function on arguments of the function's types,
   alone on the stack, agrees with the standard's call: the same globals and memory, the caller's locals as they
   were, the results on top of the stack, a trap for a trap, no jump pending.
   */
  lemma CallMeaning(s: Src, fuel: nat, f: nat, locals: seq<Width>, st0: State, st: Store, args: seq<Val>)
    requires Fine(s) && ProgOk(ProgOf(s)) && f < |ProgOf(s).fns| && ProgOf(s).fns[f].Some?
    requires Types(args) == ProgOf(s).fns[f].value.params && AllFit(args)
    requires LoadFile(FileOf(s)).Some? && st0.stack == BytesOf(args) && st0.jump == 0
    requires Holds(MachineOf(FileOf(s), LoadFile(FileOf(s)).value), st0, st, locals)
    ensures var m := MachineOf(FileOf(s), LoadFile(FileOf(s)).value);
      CallAgrees(m, locals, CallFunction(m, fuel, f, st0), EvalCall(ProgOf(s), fuel, f, st, args))
  {
    hide LoadFile, EncModule, Holds, BytesOf, CallFunction, C.RunCall, EvalCall, Above, Implements, C.Linked, ProgOk,
      ProgOf, BodiesOf, Reflects, FnFine, Fits32, Loadable, Types;
    var l := MachineImplements(s);
    var m, p, bodies := MachineOf(FileOf(s), l), ProgOf(s), BodiesOf(s);
    var c := Outside(locals);
    var fn := p.fns[f].value;
    assert [] + BytesOf(args) == BytesOf(args);
    WholeEnds(fn.params);
    SimCall(m, p, bodies, fuel, c, OffsetsOf(locals), f, [], st0, st, args, true);
    C.CallRefines(m, bodies, fuel, f, st0);
    FromAgrees(m, c, CallFunction(m, fuel, f, st0), EvalCall(p, fuel, f, st, args),
               CheckCall(c, fn.params, fn.results, true, Types(args)), fuel, f, st0, st, args, p);
  }

  lemma WholeEnds(ts: seq<Width>)
    ensures EndsIn(ts, ts)
  {
  }

  /** A call has no branch left pending. */
  lemma NoJumps(p: Prog, fuel: nat, f: nat, st: Store, stack: seq<Val>)
    requires f < |p.fns| && p.fns[f].Some?
    ensures !EvalCall(p, fuel, f, st, stack).Jump? && !EvalCall(p, fuel, f, st, stack).Ret?
  {
    hide EvalSeq;
  }

  lemma FromAgrees(m: Module, c: Ctx, r: Res, o: Outcome, t: Typing, fuel: nat, f: nat, s0: State, st: Store,
      args: seq<Val>, p: Prog)
    requires Agrees(m, c, [], C.FromRes(r), o, t) && c == Outside(c.locals)
    requires f < |p.fns| && p.fns[f].Some? && o == EvalCall(p, fuel, f, st, args)
    ensures CallAgrees(m, c.locals, r, o)
  {
    hide Holds, Above, Carries, EvalCall;
    NoJumps(p, fuel, f, st, args);
  }

  // ----- whole programs -----

  /** The store the standard starts a program with. */
  ghost function StdStore(s: Src, locals: seq<Width>): Store
  {
    Wasm.Store.Store(ZeroVals(locals),
      seq(|s.globals|, i requires 0 <= i < |s.globals| => Val(s.globals[i].w, s.globals[i].v % Modulus(s.globals[i].w))),
      StdMemory(s.memory))
  }

  /** The same with the memory deep_main provides: one page where the program declares none. */
  ghost function InitialStore(s: Src, locals: seq<Width>): Store
  {
    StdStore(s, locals).(memory := if s.memory.Some? then StdMemory(s.memory) else Zeros(PAGE_SIZE))
  }

  /** The standard's run: the start function if there is one, then main. Main's own frame is not counted as a call. */
  ghost function StdRun(p: Prog, fuel: nat, start: Option<nat>, main: nat, st: Store): Outcome
    requires main < |p.fns| && p.fns[main].Some? && (start.Some? ==> start.value < |p.fns| && p.fns[start.value].Some?)
  {
    match if start.None? then Normal(st, []) else EvalCall(p, fuel, start.value, st, [])
    case Normal(st', _) => EvalCall(p, fuel + 1, main, st', [])
    case other => other
  }

  /** What running the file must return for the standard's outcome. */
  ghost predicate FinalAgrees(r: Final, o: Outcome)
  {
    match o
    case Normal(_, vs) => |vs| == 1 && r == Returned(TypeByte(vs[0].w), vs[0].n)
    case Trap => r == Crashed
    case NoFuel => r == Unfinished
    case Deviant => true
    case _ => false
  }

  lemma InitialHolds(s: Src, l: Loaded, main: FnInfo, locals: seq<Width>)
    requires Fine(s) && l.globals == LoadGlobals(ToModule(s).globals) && l.memory == s.memory
    requires main.offsets == OffsetsOf(locals)
    ensures Holds(MachineOf(FileOf(s), l), InitialState(l, main), InitialStore(s, locals), locals)
  {
    hide EncModule, FnFine, Fits32, Loadable, BytesOf, CodeOf, TableOf, StdTable, NoMemoryProg, ProgOf, T.AllDifferent,
      AllTypes, A.Unique;
    var st := InitialStore(s, locals);
    assert locals[..|locals|] == locals;
    assert Types(st.locals) == locals;
    ZeroBytes(locals);
    forall i | 0 <= i < |s.globals|
      ensures InitialState(l, main).globals[i] == st.globals[i].n
        && st.globals[i].w == WidthOf(MachineOf(FileOf(s), l).gtypes[i]) && Fit(st.globals[i])
    {
      GlobalIs(s.globals[i]);
    }
  }

  lemma GlobalIs(g: SrcGlobal)
    requires GlobalFine(g)
    ensures InitBits(GlobalDef(g).init) == g.v % Modulus(g.w) && WidthOf(TypeByte(g.w)) == g.w
    ensures Fits(g.w, g.v % Modulus(g.w))
  {
  }

  /** Main's frame run as call_main runs it: to its end, with no caller to leave to. */
  lemma MainFrame(s: Src, m: Module, fuel: nat, main: nat, s0: State, st: Wasm.Store)
    requires Fine(s) && ProgOk(ProgOf(s)) && C.Linked(m, BodiesOf(s)) && Implements(m, BodiesOf(s), ProgOf(s))
    requires main < |ProgOf(s).fns| && ProgOf(s).fns[main].Some? && main < |m.fns|
    requires var fn := ProgOf(s).fns[main].value;
      fn.params == [] && |fn.results| == 1 && st.locals == ZeroVals(fn.locals) && Holds(m, s0, st, fn.locals)
    requires s0.jump == 0 && s0.stack == []
    ensures var fn, info := ProgOf(s).fns[main].value, m.fns[main];
      FinalAgrees(FinalOf(TypeBytes(fn.results), Exec(m, fuel, info.offsets, info.begin, info.begin + info.size, s0)),
                  EvalCall(ProgOf(s), fuel + 1, main, st, []))
  {
    hide Implements, C.Linked, ProgOk, ProgOf, BodiesOf, FnFine, Fits32, Loadable, Holds, BytesOf, Exec, EvalSeq,
      C.RunSeq, CheckSeq, Above, Top, SitsSeq, C.WellSeq,
         FinalOf, FinalAgrees, ZeroVals, Types, OffsetsOf;
    var p, bodies := ProgOf(s), BodiesOf(s);
    var fn, info := p.fns[main].value, m.fns[main];
    MainImplements(m, bodies, p, main);
    FnIsOk(p, main);
    MainSim(m, p, bodies, fuel, fn, info.offsets, s0, st);
    MainCall(p, fuel, main, st);
    C.ExecSeq(m, bodies, fuel, info.offsets, fn.body, info.begin, info.begin + info.size, s0);
    var r := C.RunSeq(m, bodies, fuel, info.offsets, fn.body, s0);
    if r.Done? { C.ExecCloser(m, fuel, info.offsets, info.begin + LenSeq(fn.body), r.s); }
    MainFinal(m, fn, fuel, info, s0, st, r, EvalSeq(p, fuel, fn.body, st, []), CheckSeq(p, FnCtx(fn), fn.body, []));
  }

  lemma MainSim(m: Module, p: Prog, bodies: seq<seq<Ins>>, fuel: nat, fn: Fn, offsets: seq<nat>, s0: State,
      st: Wasm.Store)
    requires Implements(m, bodies, p) && ProgOk(p) && FnOk(p, fn) && fn.params == []
      && offsets == OffsetsOf(FnCtx(fn).locals)
    requires C.Linked(m, bodies) && Holds(m, s0, st, fn.locals) && s0.jump == 0 && s0.stack == []
    ensures var o, t := EvalSeq(p, fuel, fn.body, st, []), CheckSeq(p, FnCtx(fn), fn.body, []);
      && Agrees(m, FnCtx(fn), [], C.RunSeq(m, bodies, fuel, offsets, fn.body, s0), o, t)
      && (t == Dead || t == Live(fn.results) || o.Trap? || o.NoFuel? || o.Jump? || o.Ret? || o.Deviant?)
  {
    hide Implements, C.Linked, ProgOk, Holds, EvalSeq, C.RunSeq, CheckSeq, OffsetsOf;
    BytesOfNone();
    assert [] + BytesOf([]) == [];
    assert Types([]) == [] && fn.params + fn.locals == fn.locals;
    SimSeq(m, p, bodies, fuel, FnCtx(fn), offsets, fn.body, [], s0, st, []);
  }

  lemma MainCall(p: Prog, fuel: nat, main: nat, st: Wasm.Store)
    requires main < |p.fns| && p.fns[main].Some? && p.fns[main].value.params == []
      && st.locals == ZeroVals(p.fns[main].value.locals)
    ensures EvalCall(p, fuel + 1, main, st, [])
      == ReturnTo(st, [], |p.fns[main].value.results|, EvalSeq(p, fuel, p.fns[main].value.body, st, []))
  {
    hide EvalSeq;
    assert Types([]) == [] && Last([], 0) + ZeroVals(p.fns[main].value.locals) == ZeroVals(p.fns[main].value.locals);
    assert st.(locals := ZeroVals(p.fns[main].value.locals)) == st;
  }

  lemma FnIsOk(p: Prog, f: nat)
    requires ProgOk(p) && f < |p.fns| && p.fns[f].Some?
    ensures FnOk(p, p.fns[f].value)
  {
  }

  lemma MainImplements(m: Module, bodies: seq<seq<Ins>>, p: Prog, main: nat)
    requires Implements(m, bodies, p) && C.Linked(m, bodies) && main < |p.fns| && p.fns[main].Some?
      && p.fns[main].value.params == []
    ensures main < |m.fns| == |bodies| && C.LinkedFn(m, main, bodies[main]) && bodies[main] == p.fns[main].value.body
    ensures m.fns[main].offsets == OffsetsOf(p.fns[main].value.locals) == OffsetsOf(FnCtx(p.fns[main].value).locals)
  {
    assert ImplementsFn(m.fns[main], bodies[main], p.fns[main]);
    assert [] + p.fns[main].value.locals == p.fns[main].value.locals;
  }

  /** The value on top of the stack is the result. */
  lemma TopIs(stack: seq<byte>, v: Val, exact: bool)
    requires Above([], stack, [v], exact) && Fit(v)
    ensures |stack| >= Size(v.w) && Top(stack, v.w) == v.n && WidthOf(TypeByte(v.w)) == v.w
      && IsValueType(TypeByte(v.w))
  {
    BytesOfOne(v);
    var x := stack[..|stack| - Size(v.w)];
    assert stack == x + ValBytes(v);
    PopTop(x, v);
  }

  ghost predicate OneResult(results: seq<Width>, vs: seq<Val>) { |vs| == 1 && Types(vs) == results && AllFit(vs) }

  lemma ResultTop(results: seq<Width>, stack: seq<byte>, vs: seq<Val>, exact: bool, natural: bool, s: State)
    requires OneResult(results, vs) && Above([], stack, vs, exact) && s.stack == stack
    ensures FinalOf(TypeBytes(results), End(natural, s)) == Returned(TypeByte(vs[0].w), vs[0].n)
  {
    hide Above, Top;
    assert vs == [vs[0]];
    assert Types(vs)[0] == vs[0].w;
    TopIs(stack, vs[0], exact);
  }

  lemma MainFinal(m: Module, fn: Fn, fuel: nat, info: FnInfo, s0: State, st: Wasm.Store, r: C.Run, o: Outcome,
      t: Typing)
    requires |fn.results| == 1 && Agrees(m, FnCtx(fn), [], r, o, t)
      && (t == Dead || t == Live(fn.results) || o.Trap? || o.NoFuel? || o.Jump? || o.Ret? || o.Deviant?)
    ensures FinalAgrees(FinalOf(TypeBytes(fn.results), match r case Done(s) => End(s.jump == 0, C.ExitFrame(s)) case Stuck => Fault case NoFuel => OutOfFuel),
                        ReturnTo(st, [], 1, o))
  {
    hide Holds, Above, BytesOf, Top;
    match o
    case Normal(st', vs) =>
      ResultTop(fn.results, r.s.stack, vs, !fn.junk, true, C.ExitFrame(r.s));
      assert [] + vs == vs;
    case Jump(n, st', vs) =>
      AllFitLast(vs, 1);
      ResultTop(fn.results, r.s.stack, Last(vs, 1), !fn.junk, r.s.jump == 0, C.ExitFrame(r.s));
      assert [] + Last(vs, 1) == Last(vs, 1);
    case Ret(st', vs) =>
      AllFitLast(vs, 1);
      ResultTop(fn.results, r.s.stack, Last(vs, 1), !fn.junk, r.s.jump == 0, C.ExitFrame(r.s));
      assert [] + Last(vs, 1) == Last(vs, 1);
    case _ =>
  }

  lemma CallKeepsLocals(p: Prog, fuel: nat, f: nat, st: Wasm.Store, stack: seq<Val>)
    requires f < |p.fns| && p.fns[f].Some?
    ensures EvalCall(p, fuel, f, st, stack).Normal? ==> EvalCall(p, fuel, f, st, stack).s.locals == st.locals
  {
    hide EvalSeq;
  }

  /** The main function as loaded. */
  lemma MainRuns(s: Src, l: Loaded, main: nat)
    requires Fine(s) && Startable(s) && l.exports == s.exports && FindMain(s.exports) == Some(main)
    requires var m := MachineOf(FileOf(s), l); C.Linked(m, BodiesOf(s)) && Implements(m, BodiesOf(s), ProgOf(s))
    ensures Runnable(l) && main < |l.fns| && l.fns[main].offsets == OffsetsOf(ProgOf(s).fns[main].value.locals)
  {
    hide EncModule, FnFine, Fits32, Loadable, CodeOf, TableOf, ProgOf, BodiesOf, C.Linked, FindMain;
    var m := MachineOf(FileOf(s), l);
    MainImplements(m, BodiesOf(s), ProgOf(s), main);
    assert ImplementsFn(m.fns[main], BodiesOf(s)[main], ProgOf(s).fns[main]);
  }

  /** Main's results are the ones its type says. */
  lemma MainResults(s: Src, main: nat)
    requires Fine(s) && main < |ProgOf(s).fns| && ProgOf(s).fns[main].Some?
    ensures |s.imports| <= main && ResultsOf(s, main) == ProgOf(s).fns[main].value.results
  {
    hide Fits32, Loadable, BodyOf, S.SeqOk, AllTypes, ToModule, FnFine, SigOf;
    var f := s.fns[main - |s.imports|];
    assert FnFine(s, f);
    assert ProgOf(s).fns[main] == Some(FnOf(s, f));
  }

  lemma RunMeaning(s: Src, fuel: nat)
    requires Accepted(s)
    ensures var p, main := ProgOf(s), FindMain(s.exports).value;
      FinalAgrees(RunFile(FileOf(s), fuel), StdRun(p, fuel, s.start, main, InitialStore(s, p.fns[main].value.locals)))
  {
    hide LoadFile, EncModule, FnFine, Fits32, Loadable, CodeOf, TableOf, ProgOf, BodiesOf, C.Linked, Implements,
      Reflects, ProgOk, Holds, EvalCall, CallFunction, Exec, FindMain, OffsetsOf, InitialState, InitialStore, BytesOf, Above, FinalOf;
    var l := MachineImplements(s);
    var p, main := ProgOf(s), FindMain(s.exports).value;
    var m, fn := MachineOf(FileOf(s), l), p.fns[main].value;
    MainRuns(s, l, main);
    MainResults(s, main);
    var info := l.fns[main];
    var s0, st := InitialState(l, info), InitialStore(s, fn.locals);
    InitialHolds(s, l, info, fn.locals);
    InitialParts(s, l, info, fn.locals);
    if s.start.Some? {
      BytesOfNone();
      NoTypes();
      CallMeaning(s, fuel, s.start.value, fn.locals, s0, st, []);
      CallKeepsLocals(p, fuel, s.start.value, st, []);
      match EvalCall(p, fuel, s.start.value, st, [])
      case Normal(st', _) =>
        var s' := CallFunction(m, fuel, s.start.value, s0).s;
        HoldsIgnores(m, s', s'.(stack := []), st', fn.locals);
        MainFrame(s, m, fuel, main, s'.(stack := []), st');
      case _ => Stops(TypeBytes(fn.results));
    } else {
      MainFrame(s, m, fuel, main, s0, st);
    }
  }

  /** Whether a program that never touches memory has one or not makes no difference. */
  lemma MemoryUnused(s: Src, fuel: nat, main: nat, st: Store, memory: seq<byte>)
    requires NoMemoryProg(ProgOf(s)) && Startable(s)
    requires FindMain(s.exports) == Some(main)
    ensures var p := ProgOf(s);
      StdRun(p, fuel, s.start, main, st.(memory := memory)) == With(StdRun(p, fuel, s.start, main, st), memory)
  {
    hide EvalCall, NoMemoryProg, FnFine, ProgOf;
    var p := ProgOf(s);
    if s.start.Some? {
      MemoryUnusedCall(p, fuel, s.start.value, st, [], memory);
      var o := EvalCall(p, fuel, s.start.value, st, []);
      if o.Normal? { MemoryUnusedCall(p, fuel + 1, main, o.s, [], memory); }
    } else {
      MemoryUnusedCall(p, fuel + 1, main, st, [], memory);
    }
  }

  /** The standard's outcome of the program with so much fuel. */
  ghost function StdOutcome(s: Src, fuel: nat): Outcome
  {
    if !Startable(s) then Wrong
    else
      var p, main := ProgOf(s), FindMain(s.exports).value;
      StdRun(p, fuel, s.start, main, StdStore(s, p.fns[main].value.locals))
  }

  /** r is what the standard says of the program's run. */
  ghost predicate ReturnsStd(s: Src, fuel: nat, r: Final) { FinalAgrees(r, StdOutcome(s, fuel)) }

  /**
   The meaning of a program, with fuel: assembling it, loading the file and running it returns the standard's result,
   crashes where the standard traps and runs out of fuel where the standard does, unless the run meets a deviation.
   */
  lemma ProgramMeaning(s: Src, fuel: nat)
    requires Accepted(s)
    ensures ReturnsStd(s, fuel, RunDeep(FileOf(s), fuel))
  {
    hide RunFile, FileOf, StdRun, FindMain, StdStore, ProgOk, ProgOf, Fine, NoMemoryProg;
    RunMeaning(s, fuel);
    var p, main := ProgOf(s), FindMain(s.exports).value;
    var st := StdStore(s, p.fns[main].value.locals);
    StdStoreMemory(s, p.fns[main].value.locals);
    if s.memory.None? {
      FineMemory(s);
      MemoryUnused(s, fuel, main, st, Zeros(PAGE_SIZE));
    } else {
      assert st.(memory := st.memory) == st;
    }
  }

  lemma FineMemory(s: Src)
    requires Fine(s) && s.memory.None?
    ensures NoMemoryProg(ProgOf(s))
  {
    hide FnFine, Fits32, Loadable, ProgOf, ToModule, NoMemoryProg;
  }

  lemma StdStoreMemory(s: Src, locals: seq<Width>)
    ensures StdStore(s, locals).memory == StdMemory(s.memory)
  {
  }

  lemma NoTypes()
    ensures Types([]) == [] && AllFit([])
  {
  }

  lemma Stops(results: seq<byte>)
    ensures FinalOf(results, Fault) == Crashed && FinalOf(results, OutOfFuel) == Unfinished
  {
  }

  lemma InitialParts(s: Src, l: Loaded, info: FnInfo, locals: seq<Width>)
    requires |info.offsets| > 0
    ensures InitialState(l, info).stack == [] && InitialState(l, info).jump == 0
      && InitialStore(s, locals).locals == ZeroVals(locals)
    ensures InitialState(l, info).(stack := []) == InitialState(l, info)
  {
  }

  /** Only the first 1024 bytes are read, and a program's file loads exactly if that is all of it. */
  lemma FileLoadsIff(s: Src, fuel: nat)
    requires Fine(s)
    ensures LoadFile(ReadIn(FileOf(s))).Some? <==> |FileOf(s)| <= 1024
    ensures |FileOf(s)| > 1024 ==> RunDeep(FileOf(s), fuel) == Crashed
  {
    hide EncModule, LoadFile, FnFine, Fits32, Loadable, Startup, ToModule, A.Unique, T.AllDifferent, UseFine, RunLoaded;
    assert ToModule(s).datas == [] && ToModule(s).fns != [] by { ModuleShape(s); }
    if |FileOf(s)| > FILE_SIZE {
      CutLoadsIff(ToModule(s), FILE_SIZE);
    } else {
      var l := FileLoads(s);
    }
  }

  lemma ModuleShape(s: Src)
    requires s.fns != []
    ensures ToModule(s).datas == [] && ToModule(s).fns != []
  {
    hide TypeDefs, AllTypes, DefOf;
  }

  // ----- without fuel -----

  /** More fuel changes nothing in the standard's outcome, once it ends. */
  lemma MoreStd(s: Src, fuel: nat)
    ensures !StdOutcome(s, fuel).NoFuel? ==> StdOutcome(s, fuel + 1) == StdOutcome(s, fuel)
  {
    hide EvalCall, ProgOf, FindMain, StdStore;
    if Startable(s) {
      var p, main := ProgOf(s), FindMain(s.exports).value;
      var st := StdStore(s, p.fns[main].value.locals);
      if s.start.Some? { MoreCall(p, fuel, s.start.value, st, []); }
      match if s.start.None? then Normal(st, []) else EvalCall(p, fuel, s.start.value, st, [])
      case Normal(st', _) => MoreCall(p, fuel + 1, main, st', []);
      case _ =>
    }
  }

  lemma {:induction false} StdStays(s: Src, fuel: nat, more: nat)
    requires !StdOutcome(s, fuel).NoFuel? && fuel <= more
    ensures StdOutcome(s, more) == StdOutcome(s, fuel)
    decreases more
  {
    hide StdOutcome;
    if fuel < more {
      StdStays(s, fuel, more - 1);
      MoreStd(s, more - 1);
    }
  }

  /** The standard's outcome of a program; None: the program runs for ever. */
  ghost function StdResult(s: Src): Option<Outcome>
  {
    if fuel: nat :| !StdOutcome(s, fuel).NoFuel? then Some(StdOutcome(s, fuel)) else None
  }

  lemma StdResultIs(s: Src, fuel: nat)
    ensures !StdOutcome(s, fuel).NoFuel? ==> StdResult(s) == Some(StdOutcome(s, fuel))
  {
    hide StdOutcome;
    if n: nat :| !StdOutcome(s, n).NoFuel? {
      forall n: nat, k: nat | !StdOutcome(s, n).NoFuel? && !StdOutcome(s, k).NoFuel?
        ensures StdOutcome(s, n) == StdOutcome(s, k)
      {
        if n <= k { StdStays(s, n, k); } else { StdStays(s, k, n); }
      }
    }
  }

  /**
   The meaning of a program: its file ends with the standard's result, in the standard's trap, or never, exactly as the
   standard's run does, unless that run meets a deviation.
   */
  lemma ProgramResult(s: Src)
    requires Accepted(s)
    ensures match StdResult(s)
      case None => FileResult(ReadIn(FileOf(s))) == None
      case Some(o) => o.Deviant? || (FileResult(ReadIn(FileOf(s))).Some? && FinalAgrees(FileResult(ReadIn(FileOf(s))).value, o))
  {
    hide Accepted, StdOutcome, FileOf, ReadIn, RunFile;
    var file := ReadIn(FileOf(s));
    if fuel: nat :| !StdOutcome(s, fuel).NoFuel? {
      StdResultIs(s, fuel);
      ProgramMeaning(s, fuel);
      FileResultIs(file, fuel);
    } else {
      forall fuel: nat ensures RunFile(file, fuel) == Unfinished {
        assert StdOutcome(s, fuel).NoFuel?;
        ProgramMeaning(s, fuel);
      }
    }
  }

  // ----- the whole pipeline -----

  /** The forms of a program before its types are numbered: what is there of them in the top-level forms, bodies folded. */
  ghost function FormsOf(s: Src): W.Forms
  {
    W.Forms(
      [],
      seq(|s.imports|, i requires 0 <= i < |s.imports| => Import(s.imports[i].from, s.imports[i].name, 0)),
      seq(|s.fns|, i requires 0 <= i < |s.fns| => FormOf(s.fns[i])),
      s.table, s.memory,
      seq(|s.globals|, i requires 0 <= i < |s.globals| => GlobalDef(s.globals[i])),
      s.exports, s.start, s.elems, [],
      s.fnNames, s.globalNames, [])
  }

  ghost function FormOf(f: SrcFn): W.FnForm
  {
    W.FnForm(0, TypeBytes(f.locals), f.names, if S.SeqOk(f.body) then S.FoldSeq(f.body) else [])
  }

  function UseForm(u: SrcUse): T.Use
  {
    T.Use(match u.ref case Some(r) => Some(S.RefText(r)) case None => None, TypeDef(u.sig))
  }

  function UseForms(us: seq<SrcUse>): (r: seq<T.Use>)
    ensures |r| == |us|
  {
    seq(|us|, i requires 0 <= i < |us| => UseForm(us[i]))
  }

  /** The forms with the type table and the numbers of the types, imports first. */
  function Numbered(forms: W.Forms, table: T.Types, ts: seq<nat>): W.Forms
    requires |ts| == |forms.imports| + |forms.fns|
  {
    var n := |forms.imports|;
    forms.(
      types := table.sigs, typeNames := table.names,
      imports := seq(n, i requires 0 <= i < n => forms.imports[i].(t := ts[i])),
      fns := seq(|forms.fns|, i requires 0 <= i < |forms.fns| => forms.fns[i].(t := ts[n + i])))
  }

  /** What registering all uses gives: the table with every entry, and each use's number in it. */
  ghost predicate Registers(s: Src, table: T.Types, ts: seq<nat>)
  {
    && table == T.EnterAll(T.DeclareAll(Decls(s)), UseForms(UsesOf(s))) && T.Ok(table) && |ts| == |UsesOf(s)|
    && forall k :: 0 <= k < |ts| ==>
         match T.Known(T.DeclareAll(Decls(s)).names, UseForm(UsesOf(s)[k]))
         case Some(i) => ts[k] == i
         case None => ts[k] < |table.sigs| && table.sigs[ts[k]] == UseForm(UsesOf(s)[k]).sig
  }

  /** Distinct declared signatures: the table has the program's types and names, in the program's order. */
  lemma TypesKept(s: Src)
    requires T.AllDifferent(Decls(s)) && |s.typeNames| == |s.types|
    ensures var t := T.DeclareAll(Decls(s)); t.sigs == TypeDefs(s.types) && t.names == s.typeNames && T.Ok(t)
  {
    hide T.DeclareAll, T.AllDifferent;
    T.NumbersKeptIff(Decls(s));
    T.NamesKept(Decls(s));
    T.DeclareAllIs(Decls(s));
  }

  lemma {:induction false} TypeBytesInjective(a: seq<Width>, b: seq<Width>)
    ensures TypeBytes(a) == TypeBytes(b) ==> a == b
  {
    if TypeBytes(a) == TypeBytes(b) {
      forall i | 0 <= i < |a| ensures a[i] == b[i] { assert TypeBytes(a)[i] == TypeBytes(b)[i]; }
    }
  }

  lemma TypeDefInjective(x: SrcType, y: SrcType)
    ensures TypeDef(x) == TypeDef(y) ==> x == y
  {
    TypeBytesInjective(x.params, y.params);
    TypeBytesInjective(x.results, y.results);
  }

  lemma InTypeDefs(ts: seq<SrcType>, x: SrcType)
    ensures TypeDef(x) in TypeDefs(ts) <==> x in ts
  {
    if TypeDef(x) in TypeDefs(ts) {
      var i :| 0 <= i < |ts| && TypeDefs(ts)[i] == TypeDef(x);
      TypeDefInjective(ts[i], x);
    }
    if i :| 0 <= i < |ts| && ts[i] == x { assert TypeDefs(ts)[i] == TypeDef(x); }
  }

  /** The types a table wants of these uses. */
  function InlineDefs(us: seq<SrcUse>): (r: seq<Option<FuncType>>)
    ensures |r| == |us|
  {
    seq(|us|, i requires 0 <= i < |us| => if us[i].ref.None? then Some(TypeDef(us[i].sig)) else None)
  }

  lemma {:induction false} InsertedDefs(types: seq<SrcType>, us: seq<SrcUse>)
    ensures T.Inserted(TypeDefs(types), InlineDefs(us)) == TypeDefs(T.Inserted(types, Inline(us)))
    decreases |us|
  {
    if us != [] {
      var n := |us| - 1;
      InsertedDefs(types, us[..n]);
      assert Inline(us)[..n] == Inline(us[..n]) && InlineDefs(us)[..n] == InlineDefs(us[..n]);
      InTypeDefs(T.Inserted(types, Inline(us[..n])), us[n].sig);
    }
  }

  /** A use refers to a declared type exactly if it resolves. */
  lemma UseResolves(s: Src, u: SrcUse)
    requires UseFine(s, u)
    ensures T.Known(s.typeNames, UseForm(u)) == (match u.ref case Some(r) => Declared(s, r) case None => None)
  {
    hide A.ResolveName, S.RefText;
  }

  /** register_func_type gives the program's own types and numbers. */
  lemma TypesRegistered(s: Src, table: T.Types, ts: seq<nat>)
    requires Fine(s) && Registers(s, table, ts)
    ensures table.sigs == TypeDefs(AllTypes(s)) && table.names == AllTypeNames(s)
    ensures forall k :: 0 <= k < |ts| ==> ts[k] == TypeIndex(s, UsesOf(s)[k])
  {
    hide FnFine, Fits32, Loadable, ToModule, Startup, T.DeclareAll, T.EnterAll, T.AllDifferent, A.Unique, T.Inserted,
      T.Known, Declared, UseFine;
    TypesKept(s);
    var us, d := UsesOf(s), T.DeclareAll(Decls(s));
    T.EnterAllIs(d, UseForms(us));
    forall k | 0 <= k < |us| ensures UseFine(s, us[k]) { UsesFine(s, k); }
    forall k | 0 <= k < |us|
      ensures T.Known(d.names, UseForm(us[k])) == (match us[k].ref case Some(r) => Declared(s, r) case None => None)
      ensures us[k].ref.Some? ==> T.Known(d.names, UseForm(us[k])).Some?
    {
      UseResolves(s, us[k]);
      if us[k].ref.Some? { DeclaredSome(s, us[k]); }
    }
    assert T.Wanted(d.names, UseForms(us)) == InlineDefs(us);
    InsertedDefs(s.types, us);
    assert |table.names| == |table.sigs|;
    assert AllTypeNames(s) == table.names by { T.InsertedHas(s.types, Inline(us)); }
    forall k | 0 <= k < |ts| && us[k].ref.None? ensures ts[k] == TypeIndex(s, us[k]) { NumberIs(s, table, us[k].sig, ts[k]); }
  }

  lemma UsesFine(s: Src, k: nat)
    requires Fine(s) && k < |UsesOf(s)|
    ensures UseFine(s, UsesOf(s)[k])
  {
    hide Fits32, Loadable, ToModule, Startup, T.AllDifferent, A.Unique, UseFine, NamesFit, BodyOf, S.SeqOk, Copes;
    if k >= |s.imports| { assert FnFine(s, s.fns[k - |s.imports|]); }
  }

  lemma DeclaredSome(s: Src, u: SrcUse)
    requires UseFine(s, u) && u.ref.Some?
    ensures Declared(s, u.ref.value).Some?
  {
  }

  lemma NumberIs(s: Src, table: T.Types, sig: SrcType, i: nat)
    requires T.Ok(table) && table.sigs == TypeDefs(AllTypes(s)) && i < |table.sigs| && table.sigs[i] == TypeDef(sig)
    ensures T.Find(TypeDefs(AllTypes(s)), TypeDef(sig)) == Some(i)
  {
    hide AllTypes;
    assert table.sigs[i] in table.sigs;
  }

  lemma FormAssembles(s: Src, f: SrcFn, forms: W.Forms, form: W.FnForm)
    requires FnFine(s, f) && forms.fnNames == s.fnNames && forms.globalNames == s.globalNames
      && forms.typeNames == AllTypeNames(s) && form == FormOf(f).(t := form.t)
    ensures W.BodyCode(forms, form) == Some(CodeOf(s, f))
  {
    hide A.EmitSeq, S.LowerSeq, Copes, NamesFit, SameLabelsSeq, AllTypeNames, A.Unique, UseFine;
    FoldedIsLowered(NamesOf(s, f), [None], f.body);
    SameSeqMeans(NamesOf(s, f), [None], [None], f.body);
  }

  /** A program's forms, their types numbered by register_func_type, describe exactly the module the theorem is about. */
  lemma FormsAreModule(s: Src, table: T.Types, ts: seq<nat>)
    requires Fine(s) && Registers(s, table, ts)
    ensures var forms := Numbered(FormsOf(s), table, ts);
      && W.Assembles(forms) && W.GlobalsOk(forms) && W.DefOf(forms) == ToModule(s)
      && EncModule(W.DefOf(forms)) == FileOf(s)
  {
    hide EncModule, W.BodyCode, CodeOf, Fits32, Loadable, FnFine, T.AllDifferent, Startup, Registers, AllTypes,
      AllTypeNames, TypeIndex, A.Unique;
    RegistersAll(s, table, ts);
    var forms, d := Numbered(FormsOf(s), table, ts), ToModule(s);
    TypesRegistered(s, table, ts);
    forall i | 0 <= i < |s.fns| ensures W.BodyCode(forms, forms.fns[i]).Some? && W.DefsOf(forms)[i] == d.fns[i] {
      assert FnFine(s, s.fns[i]);
      assert UsesOf(s)[|s.imports| + i] == s.fns[i].use;
      FormAssembles(s, s.fns[i], forms, forms.fns[i]);
    }
    forall i | 0 <= i < |s.imports| ensures forms.imports[i] == d.imports[i] {
      assert UsesOf(s)[i] == s.imports[i].use;
    }
    forall i | 0 <= i < |s.globals| ensures InitOk(forms.globals[i].init) { assert GlobalFine(s.globals[i]); }
  }

  lemma RegistersAll(s: Src, table: T.Types, ts: seq<nat>)
    requires Registers(s, table, ts)
    ensures |ts| == |UsesOf(s)|
  {
  }

  /** The type table of a program, and the number in it of the type of each import and function. */
  method NumberTypes(decls: seq<T.Decl>, uses: seq<T.Use>, ghost s: Src) returns (types: T.Types, ts: seq<nat>)
    requires decls == Decls(s) && uses == UseForms(UsesOf(s))
    ensures Registers(s, types, ts)
  {
    hide T.DeclareAll, T.EnterAll, T.Known, Decls, UsesOf, UseForms, Registers, T.Ok;
    var table := new T.Table();
    table.DeclareTypes(decls);
    ghost var d := table.Abs();
    T.DeclareAllIs(decls);
    ts := table.RegisterAll(uses);
    types := T.Types(table.sigs, table.names);
    AreRegistered(s, d, types, ts);
  }

  /**
   Declaring a program's types, registering those of its functions, assembling its forms, loading the file and running
   it, each as it runs, gives what the standard says.
   */
  method AssembleAndRun(decls: seq<T.Decl>, uses: seq<T.Use>, forms: W.Forms, fuel: nat, ghost s: Src)
    returns (r: Final)
    requires Accepted(s) && decls == Decls(s) && uses == UseForms(UsesOf(s)) && forms == FormsOf(s)
    ensures ReturnsStd(s, fuel, r)
  {
    hide *;
    var types, ts := NumberTypes(decls, uses, s);
    FormSizes(s, types, ts);
    ProgramMeaning(s, fuel);
    var ok, file := W.AssembleModule(Numbered(forms, types, ts));
    r := DeepMain(file.data, fuel);
  }

  lemma AreRegistered(s: Src, d: T.Types, table: T.Types, ts: seq<nat>)
    requires d == T.DeclareAll(Decls(s)) && table == T.EnterAll(d, UseForms(UsesOf(s))) && T.Ok(table)
    requires |ts| == |UseForms(UsesOf(s))|
    requires forall k :: 0 <= k < |ts| ==> match T.Known(d.names, UseForms(UsesOf(s))[k])
      case Some(t) => ts[k] == t
      case None => ts[k] < |table.sigs| && table.sigs[ts[k]] == UseForms(UsesOf(s))[k].sig
    ensures Registers(s, table, ts)
  {
    hide T.DeclareAll, T.EnterAll, T.Known, Decls, UsesOf, UseForm, T.Ok;
    forall k | 0 <= k < |ts| ensures UseForms(UsesOf(s))[k] == UseForm(UsesOf(s)[k]) {}
  }

  lemma FormSizes(s: Src, table: T.Types, ts: seq<nat>)
    requires Accepted(s) && Registers(s, table, ts)
    ensures |ts| == |FormsOf(s).imports| + |FormsOf(s).fns|
    ensures var forms := Numbered(FormsOf(s), table, ts);
      W.Assembles(forms) && W.GlobalsOk(forms) && EncModule(W.DefOf(forms)) == FileOf(s)
  {
    hide Fine, Registers, FileOf, EncModule, W.Assembles, W.GlobalsOk, W.DefOf, Numbered, ProgOf, ProgOk, Startable;
    RegistersAll(s, table, ts);
    FormsAreModule(s, table, ts);
  }
}
