/** deep_load: splitting a file into sections and decoding each into the module the interpreter runs. */
module Loader {
  import opened Bytes
  import opened Leb
  import opened Isa
  import opened Machine
  import opened Sections

  datatype Section = Section(id: byte, begin: nat, size: nat)

  /** DEEPModule, with the fields this model uses. */
  datatype Loaded = Loaded(
    types: seq<FuncType>,
    imports: seq<Import>,
    fns: seq<FnInfo>,
    table: Option<Limits>,
    memory: Option<Limits>,
    globals: seq<LoadedGlobal>,
    exports: seq<Export>,
    start: Option<nat>,
    elems: seq<Elem>,
    datas: seq<Data>)

  const NOTHING: Loaded := Loaded([], [], [], None, None, [], [], None, [], [])

  // ----- functions -----

  /** Each local's byte offset, then the total. */
  function PrefixSums(ts: seq<byte>): (r: seq<nat>)
    ensures |r| == |ts| + 1
  {
    seq(|ts| + 1, i requires 0 <= i <= |ts| => TypesSize(ts[..i]))
  }

  predicate ValueTypes(ts: seq<byte>) { forall i :: 0 <= i < |ts| ==> IsValueType(ts[i]) || ts[i] == TYPE_VOID }

  function ImportInfo(types: seq<FuncType>, t: nat): Option<FnInfo>
  {
    if t < |types| && |types[t].params| <= 255 && ValueTypes(types[t].params) then
      Some(FnInfo(true, types[t].params, types[t].results, 0, 0, PrefixSums(types[t].params)))
    else None
  }

  function ImportInfos(types: seq<FuncType>, imports: seq<Import>): Option<seq<FnInfo>>
  {
    if imports == [] then Some([])
    else Cons(ImportInfo(types, imports[0].t), ImportInfos(types, imports[1..]))
  }

  function Cons<T>(x: Option<T>, xs: Option<seq<T>>): Option<seq<T>>
  {
    if x.Some? && xs.Some? then Some([x.value] + xs.value) else None
  }

  function Append<T>(xs: Option<seq<T>>, ys: Option<seq<T>>): Option<seq<T>>
  {
    if xs.Some? && ys.Some? then Some(xs.value + ys.value) else None
  }

  /** A function of type t whose code entry starts at p, and the next entry's position. */
  datatype Entry = Entry(info: FnInfo, next: nat)

  /**
   A function's description. More than 255 parameters and locals together do not fit local_var_count: the
   loader's assertion fails.
   */
  function DecEntry(types: seq<FuncType>, t: nat, file: seq<byte>, p: nat): Option<Entry>
  {
    match ReadU32(file, p)
    case PastEnd => None
    case Got(size, q) =>
      if t >= |types| then None
      else
        match DecList(file, q, DecCluster)
        case PastEnd => None
        case Got(cs, begin) =>
          var locals := types[t].params + Expand(cs);
          if |locals| > 255 || !ValueTypes(locals) || q + size < begin then None
          else Some(Entry(FnInfo(false, types[t].params, types[t].results, begin, q + size - begin, PrefixSums(locals)), q + size))
  }

  function DecEntries(types: seq<FuncType>, ts: seq<nat>, file: seq<byte>, p: nat): Option<seq<FnInfo>>
    decreases |ts|
  {
    if ts == [] then Some([])
    else
      match DecEntry(types, ts[0], file, p)
      case None => None
      case Some(e) => Cons(Some(e.info), DecEntries(types, ts[1..], file, e.next))
  }

  /** The function section at p together with the code section at code. */
  function DecFunctions(types: seq<FuncType>, imports: seq<Import>, file: seq<byte>, p: nat,
      code: nat): Option<seq<FnInfo>>
  {
    match (DecList(file, p, DecIndex), ReadU32(file, code))
    case (Got(ts, _), Got(n, q)) =>
      if n != |ts| then None else Append(ImportInfos(types, imports), DecEntries(types, ts, file, q))
    case _ => None
  }

  // ----- sections -----

  /** create_section_list on file[p..end]: the sections, if they end exactly there. */
  function Split(file: seq<byte>, p: nat, end: nat): Option<seq<Section>>
    decreases if p < end then end - p else 0
  {
    if p > end then None
    else if p == end then Some([])
    else
      match ReadU32(file, p + 1)
      case PastEnd => None
      case Got(size, q) =>
        if size >= 0x8000_0000 || p >= |file| then None
        else Cons(Some(Section(file[p], q, size)), Split(file, q + size, end))
  }

  function CodeBegin(ss: seq<Section>): Option<nat>
  {
    if ss == [] then None else if ss[0].id == 10 then Some(ss[0].begin) else CodeBegin(ss[1..])
  }

  function ListField<T>(r: Got<seq<T>>): Option<seq<T>>
  {
    match r case Got(xs, _) => Some(xs) case PastEnd => None
  }

  /** A table or memory section: a count, then one entry. */
  function DecOne(file: seq<byte>, p: nat, skip: nat): Option<Option<Limits>>
  {
    match ReadU32(file, p)
    case PastEnd => None
    case Got(n, q) =>
      if n == 0 then Some(None)
      else match DecLimits(file, q + skip) case Got(l, _) => Some(Some(l)) case PastEnd => None
  }

  /** One turn of the switch of decode_each_sections. */
  function LoadSection(file: seq<byte>, code: nat, s: Section, l: Loaded): Option<Loaded>
  {
    if s.id == 1 then match ListField(DecList(file, s.begin, DecType)) case Some(x) => Some(l.(types := x)) case None => None
    else if s.id == 2 then match ListField(DecList(file, s.begin, DecImport)) case Some(x) => Some(l.(imports := x)) case None => None
    else if s.id == 3 then match DecFunctions(l.types, l.imports, file, s.begin, code) case Some(x) => Some(l.(fns := x)) case None => None
    else if s.id == 4 then match DecOne(file, s.begin, 1) case Some(x) => Some(l.(table := x)) case None => None
    else if s.id == 5 then match DecOne(file, s.begin, 0) case Some(x) => Some(l.(memory := x)) case None => None
    else if s.id == 6 then match ListField(DecList(file, s.begin, DecGlobal)) case Some(x) => Some(l.(globals := x)) case None => None
    else if s.id == 7 then match ListField(DecList(file, s.begin, DecExport)) case Some(x) => Some(l.(exports := x)) case None => None
    else if s.id == 8 then match ReadU32(file, s.begin) case Got(i, _) => Some(l.(start := Some(i))) case PastEnd => None
    else if s.id == 9 then match ListField(DecList(file, s.begin, DecElem)) case Some(x) => Some(l.(elems := x)) case None => None
    else if s.id == 11 then match ListField(DecList(file, s.begin, DecData)) case Some(x) => Some(l.(datas := x)) case None => None
    else Some(l)
  }

  function LoadSections(file: seq<byte>, code: nat, ss: seq<Section>, l: Loaded): Option<Loaded>
    decreases |ss|
  {
    if ss == [] then Some(l)
    else match LoadSection(file, code, ss[0], l)
         case Some(l') => LoadSections(file, code, ss[1..], l')
         case None => None
  }

  const HEADER: seq<byte> := [0x00, 0x61, 0x73, 0x6D, 0x01, 0x00, 0x00, 0x00]

  /**
   deep_load. None: it reports an error, reads past the file, or never returns: with one section the list's
   node is its own successor, and without a code section the search for one runs off the list.
   */
  function LoadFile(file: seq<byte>): Option<Loaded>
  {
    if |file| < 8 || file[..8] != HEADER then None
    else
      match Split(file, 8, |file|)
      case None => None
      case Some(ss) =>
        if |ss| < 2 || CodeBegin(ss).None? then None
        else LoadSections(file, CodeBegin(ss).value, ss, NOTHING)
  }

  // ----- what the assembler writes -----

  /** A section before it is framed. */
  datatype Chunk = Chunk(id: byte, payload: seq<byte>)

  function EncSection(r: Chunk): seq<byte> { [r.id] + EncBytes(r.payload) }

  function EncOptional<T>(o: Option<T>, id: byte, payload: T -> seq<byte>): seq<Chunk>
  {
    match o case Some(x) => [Chunk(id, payload(x))] case None => []
  }

  function EncMany<T>(xs: seq<T>, id: byte, enc: T -> seq<byte>): seq<Chunk>
  {
    if |xs| == 0 then [] else [Chunk(id, EncList(xs, enc))]
  }

  function TypeIndices(fns: seq<FnDef>): (r: seq<nat>)
    ensures |r| == |fns|
  {
    seq(|fns|, i requires 0 <= i < |fns| => fns[i].t)
  }

  function EncTable(l: Limits): seq<byte> { LebU(1) + ([0x70] + EncLimits(l)) }

  function EncMemory(l: Limits): seq<byte> { LebU(1) + EncLimits(l) }

  // The sections of assemble_module, in its order; only the type section is always there.

  function FromDatas(d: ModuleDef): seq<Chunk> { EncMany(d.datas, 11, EncData) }

  function FromCode(d: ModuleDef): seq<Chunk> { EncMany(d.fns, 10, EncEntry) + FromDatas(d) }

  function FromElems(d: ModuleDef): seq<Chunk> { EncMany(d.elems, 9, EncElem) + FromCode(d) }

  function FromStart(d: ModuleDef): seq<Chunk> { EncOptional(d.start, 8, EncIndex) + FromElems(d) }

  function FromExports(d: ModuleDef): seq<Chunk> { EncMany(d.exports, 7, EncExport) + FromStart(d) }

  function FromGlobals(d: ModuleDef): seq<Chunk> { EncMany(d.globals, 6, EncGlobal) + FromExports(d) }

  function FromMemory(d: ModuleDef): seq<Chunk> { EncOptional(d.memory, 5, EncMemory) + FromGlobals(d) }

  function FromTable(d: ModuleDef): seq<Chunk> { EncOptional(d.table, 4, EncTable) + FromMemory(d) }

  function FromFunctions(d: ModuleDef): seq<Chunk> { EncMany(TypeIndices(d.fns), 3, EncIndex) + FromTable(d) }

  function FromImports(d: ModuleDef): seq<Chunk> { EncMany(d.imports, 2, EncImport) + FromFunctions(d) }

  function SectionsOf(d: ModuleDef): seq<Chunk> { [Chunk(1, EncList(d.types, EncType))] + FromImports(d) }

  function EncModule(d: ModuleDef): seq<byte> { HEADER + EncVec(SectionsOf(d), EncSection) }

  // ----- splitting what was written -----

  /** Where the sections lie when the first starts at p. */
  function Place(p: nat, cs: seq<Chunk>): seq<Section>
    decreases |cs|
  {
    if cs == [] then []
    else
      var n := |cs[0].payload|;
      [Section(cs[0].id, p + 1 + |LebU(n)|, n)] + Place(p + 1 + |LebU(n)| + n, cs[1..])
  }

  predicate ChunksFit(cs: seq<Chunk>) { forall i :: 0 <= i < |cs| ==> |cs[i].payload| < 0x8000_0000 }

  lemma SectionAt(file: seq<byte>, p: nat, c: Chunk)
    requires |c.payload| < 0x8000_0000 && At(file, p, EncSection(c))
    ensures p < |file| && file[p] == c.id
    ensures ReadU32(file, p + 1) == Got(|c.payload|, p + 1 + |LebU(|c.payload|)|)
    ensures At(file, p + 1 + |LebU(|c.payload|)|, c.payload)
    ensures |EncSection(c)| == 1 + |LebU(|c.payload|)| + |c.payload|
  {
    AtCons(file, p, c.id, EncBytes(c.payload));
    AtConcat(file, p + 1, LebU(|c.payload|), c.payload);
    LebU32RoundTrip(file, p + 1, |c.payload|);
  }

  /** Section framing: the sections written are the sections found. */
  lemma {:induction false} SplitOfPlaced(file: seq<byte>, p: nat, cs: seq<Chunk>)
    requires ChunksFit(cs) && At(file, p, EncVec(cs, EncSection))
    ensures Split(file, p, p + |EncVec(cs, EncSection)|) == Some(Place(p, cs))
    decreases |cs|
  {
    hide At, LebU, ReadU32;
    if cs != [] {
      AtConcat(file, p, EncSection(cs[0]), EncVec(cs[1..], EncSection));
      SectionAt(file, p, cs[0]);
      SplitOfPlaced(file, p + |EncSection(cs[0])|, cs[1..]);
    }
  }

  ghost function FirstSection(p: nat, c: Chunk): Section { Section(c.id, p + 1 + |LebU(|c.payload|)|, |c.payload|) }

  lemma PlaceStep(p: nat, cs: seq<Chunk>)
    requires cs != []
    ensures Place(p, cs) == [FirstSection(p, cs[0])] + Place(p + |EncSection(cs[0])|, cs[1..])
    ensures EncVec(cs, EncSection) == EncSection(cs[0]) + EncVec(cs[1..], EncSection)
  {
    hide LebU;
  }

  lemma PlaceNone(p: nat)
    ensures Place(p, []) == [] && EncVec([], EncSection) == []
  {
  }

  lemma {:induction false} PlaceConcat(p: nat, a: seq<Chunk>, b: seq<Chunk>)
    ensures EncVec(a + b, EncSection) == EncVec(a, EncSection) + EncVec(b, EncSection)
    ensures Place(p, a + b) == Place(p, a) + Place(p + |EncVec(a, EncSection)|, b)
    decreases |a|
  {
    hide LebU, Place, EncVec, EncSection, FirstSection;
    if a == [] {
      PlaceNone(p);
      assert a + b == b;
    } else {
      assert (a + b)[1..] == a[1..] + b;
      PlaceStep(p, a);
      PlaceStep(p, a + b);
      PlaceConcat(p + |EncSection(a[0])|, a[1..], b);
    }
  }

  function Then(file: seq<byte>, code: nat, ss: seq<Section>, l: Option<Loaded>): Option<Loaded>
  {
    match l case Some(l) => LoadSections(file, code, ss, l) case None => None
  }

  lemma {:induction false} LoadConcat(file: seq<byte>, code: nat, a: seq<Section>, b: seq<Section>, l: Loaded)
    ensures LoadSections(file, code, a + b, l) == Then(file, code, b, LoadSections(file, code, a, l))
    decreases |a|
  {
    hide LoadSection;
    if a == [] {
      assert a + b == b;
    } else {
      assert (a + b)[1..] == a[1..] + b;
      match LoadSection(file, code, a[0], l)
      case Some(l') => LoadConcat(file, code, a[1..], b, l');
      case None =>
    }
  }

  /** Decoding a group of sections, and what follows it. */
  lemma LoadGroup(file: seq<byte>, code: nat, p: nat, a: seq<Chunk>, b: seq<Chunk>, l: Loaded)
    requires At(file, p, EncVec(a + b, EncSection))
    ensures At(file, p, EncVec(a, EncSection)) && At(file, p + |EncVec(a, EncSection)|, EncVec(b, EncSection))
    ensures LoadSections(file, code, Place(p, a + b), l)
         == Then(file, code, Place(p + |EncVec(a, EncSection)|, b), LoadSections(file, code, Place(p, a), l))
  {
    hide LoadSections, EncVec, Place, At;
    PlaceConcat(p, a, b);
    AtConcat(file, p, EncVec(a, EncSection), EncVec(b, EncSection));
    LoadConcat(file, code, Place(p, a), Place(p + |EncVec(a, EncSection)|, b), l);
  }

  /** A single section. */
  lemma LoadOne(file: seq<byte>, code: nat, p: nat, c: Chunk, l: Loaded) returns (s: Section)
    requires |c.payload| < 0x8000_0000 && At(file, p, EncVec([c], EncSection))
    ensures s.id == c.id && At(file, s.begin, c.payload)
    ensures LoadSections(file, code, Place(p, [c]), l) == LoadSection(file, code, s, l)
  {
    hide LoadSection, At, LebU;
    assert [c][1..] == [] && EncVec([c], EncSection) == EncSection(c) + [] == EncSection(c);
    SectionAt(file, p, c);
    s := Section(c.id, p + 1 + |LebU(|c.payload|)|, |c.payload|);
    assert Place(p, [c]) == [s] && [s][1..] == [];
  }

  // ----- each section -----

  predicate TypeFits(t: FuncType) { |t.params| < 0x1_0000_0000 && |t.results| < 0x1_0000_0000 }

  predicate ImportFits(i: Import) { |i.from| < 0x1_0000_0000 && |i.name| < 0x1_0000_0000 && i.t < 0x1_0000_0000 }

  predicate ExportFits(e: Export) { |e.name| < 0x1_0000_0000 && e.index < 0x1_0000_0000 }

  /** Every number in the module fits the field it is written in. */
  predicate Fits32(d: ModuleDef)
  {
    && ChunksFit(SectionsOf(d))
    && |d.types| < 0x1_0000_0000 && (forall t :: t in d.types ==> TypeFits(t))
    && |d.imports| < 0x1_0000_0000 && (forall i :: i in d.imports ==> ImportFits(i))
    && |d.fns| < 0x1_0000_0000 && (forall f :: f in d.fns ==> f.t < 0x1_0000_0000 && |f.locals| < 0x1_0000_0000 && |EncBody(f)| < 0x1_0000_0000)
    && |d.globals| < 0x1_0000_0000 && (forall g :: g in d.globals ==> InitOk(g.init))
    && |d.exports| < 0x1_0000_0000 && (forall e :: e in d.exports ==> ExportFits(e))
    && (d.start.Some? ==> d.start.value < 0x1_0000_0000)
    && |d.elems| < 0x1_0000_0000 && (forall e :: e in d.elems ==> AllIndices(e.fns))
    && |d.datas| < 0x1_0000_0000 && (forall x :: x in d.datas ==> |x.bytes| < 0x1_0000_0000)
  }

  lemma TypesList(file: seq<byte>, p: nat, xs: seq<FuncType>)
    requires |xs| < 0x1_0000_0000 && (forall t :: t in xs ==> TypeFits(t)) && At(file, p, EncList(xs, EncType))
    ensures DecList(file, p, DecType) == Got(xs, p + |EncList(xs, EncType)|)
  {
    forall t | t in xs ensures Inverse(file, t, EncType, DecType) {
      forall q: nat | At(file, q, EncType(t)) ensures DecType(file, q) == Got(t, q + |EncType(t)|) { TypeRoundTrip(file, q, t); }
    }
    ListRoundTrip(file, p, xs, EncType, DecType);
  }

  lemma ImportsList(file: seq<byte>, p: nat, xs: seq<Import>)
    requires |xs| < 0x1_0000_0000 && (forall i :: i in xs ==> ImportFits(i)) && At(file, p, EncList(xs, EncImport))
    ensures DecList(file, p, DecImport) == Got(xs, p + |EncList(xs, EncImport)|)
  {
    forall i | i in xs ensures Inverse(file, i, EncImport, DecImport) {
      forall q: nat | At(file, q, EncImport(i)) ensures DecImport(file, q) == Got(i, q + |EncImport(i)|) { ImportRoundTrip(file, q, i); }
    }
    ListRoundTrip(file, p, xs, EncImport, DecImport);
  }

  lemma ExportsList(file: seq<byte>, p: nat, xs: seq<Export>)
    requires |xs| < 0x1_0000_0000 && (forall e :: e in xs ==> ExportFits(e)) && At(file, p, EncList(xs, EncExport))
    ensures DecList(file, p, DecExport) == Got(xs, p + |EncList(xs, EncExport)|)
  {
    forall e | e in xs ensures Inverse(file, e, EncExport, DecExport) {
      forall q: nat | At(file, q, EncExport(e)) ensures DecExport(file, q) == Got(e, q + |EncExport(e)|) { ExportRoundTrip(file, q, e); }
    }
    ListRoundTrip(file, p, xs, EncExport, DecExport);
  }

  lemma ElemsList(file: seq<byte>, p: nat, xs: seq<Elem>)
    requires |xs| < 0x1_0000_0000 && (forall e :: e in xs ==> AllIndices(e.fns)) && At(file, p, EncList(xs, EncElem))
    ensures DecList(file, p, DecElem) == Got(xs, p + |EncList(xs, EncElem)|)
  {
    forall e | e in xs ensures Inverse(file, e, EncElem, DecElem) {
      forall q: nat | At(file, q, EncElem(e)) ensures DecElem(file, q) == Got(e, q + |EncElem(e)|) { ElemRoundTrip(file, q, e); }
    }
    ListRoundTrip(file, p, xs, EncElem, DecElem);
  }

  function LoadGlobals(gs: seq<Global>): (r: seq<LoadedGlobal>)
    ensures |r| == |gs|
  {
    seq(|gs|, i requires 0 <= i < |gs| => LoadGlobal(gs[i]))
  }

  lemma {:induction false} GlobalsVec(file: seq<byte>, p: nat, xs: seq<Global>)
    requires (forall g :: g in xs ==> InitOk(g.init)) && At(file, p, EncVec(xs, EncGlobal))
    ensures DecVec(file, p, |xs|, DecGlobal) == Got(LoadGlobals(xs), p + |EncVec(xs, EncGlobal)|)
    decreases |xs|
  {
    hide At, EncGlobal, DecGlobal, LoadGlobal;
    if xs != [] {
      AtConcat(file, p, EncGlobal(xs[0]), EncVec(xs[1..], EncGlobal));
      GlobalRoundTrip(file, p, xs[0]);
      GlobalsVec(file, p + |EncGlobal(xs[0])|, xs[1..]);
      assert LoadGlobals(xs) == [LoadGlobal(xs[0])] + LoadGlobals(xs[1..]);
    }
  }

  /** The data segments as they are read: the bytes as written, each offset as read unsigned. */
  ghost predicate SameDatas(read: seq<Data>, xs: seq<Data>)
  {
    |read| == |xs| && forall i :: 0 <= i < |xs| ==> read[i].bytes == xs[i].bytes && (read[i].offset == xs[i].offset <==> xs[i].offset < 0xF800_0000)
  }

  lemma {:induction false} DatasVec(file: seq<byte>, p: nat, xs: seq<Data>) returns (read: seq<Data>)
    requires (forall x :: x in xs ==> |x.bytes| < 0x1_0000_0000) && At(file, p, EncVec(xs, EncData))
    ensures DecVec(file, p, |xs|, DecData) == Got(read, p + |EncVec(xs, EncData)|) && SameDatas(read, xs)
    decreases |xs|
  {
    hide At, EncData, DecData;
    read := [];
    if xs != [] {
      AtConcat(file, p, EncData(xs[0]), EncVec(xs[1..], EncData));
      DataRoundTrip(file, p, xs[0]);
      var rest := DatasVec(file, p + |EncData(xs[0])|, xs[1..]);
      read := [Data(DataOffset(file, p), xs[0].bytes)] + rest;
      forall i | 0 <= i < |xs| ensures read[i].bytes == xs[i].bytes && (read[i].offset == xs[i].offset <==> xs[i].offset < 0xF800_0000) {
        if i > 0 { assert read[i] == rest[i - 1] && xs[i] == xs[1..][i - 1]; }
      }
    }
  }

  // ----- functions read back -----

  /** What the loader's counters and types can hold. */
  predicate LoadableFn(types: seq<FuncType>, f: FnDef)
  {
    f.t < |types| && |types[f.t].params| + |f.locals| <= 255 && ValueTypes(types[f.t].params + f.locals)
  }

  /** A function's description says where its code lies and where each of its locals starts. */
  ghost predicate Describes(file: seq<byte>, types: seq<FuncType>, info: FnInfo, f: FnDef)
  {
    && f.t < |types| && !info.isImport && info.params == types[f.t].params && info.results == types[f.t].results
    && info.offsets == PrefixSums(types[f.t].params + f.locals)
    && info.size == |f.code| + 1 && At(file, info.begin, f.code + [OP_END])
  }

  /**
   A code entry whose locals are ls, whatever its size says and whatever bytes follow: the code is what the size
   leaves after the locals, and the next entry is where the size ends.
   */
  lemma EntryIs(file: seq<byte>, p: nat, types: seq<FuncType>, t: nat, n: nat, ls: seq<byte>)
    requires n < 0x1_0000_0000 && |ls| < 0x1_0000_0000 && At(file, p, LebU(n) + EncLocals(ls))
    ensures var q := p + |LebU(n)|;
      DecEntry(types, t, file, p) == if LoadableFn(types, FnDef(t, ls, [])) && |EncLocals(ls)| <= n
        then Some(Entry(FnInfo(false, types[t].params, types[t].results, q + |EncLocals(ls)|, n - |EncLocals(ls)|,
                               PrefixSums(types[t].params + ls)), q + n))
        else None
  {
    hide At, LebU, ReadU32, EncLocals, DecList, PrefixSums, ValueTypes, DecCluster, Expand, Clusters;
    AtConcat(file, p, LebU(n), EncLocals(ls));
    LebU32RoundTrip(file, p, n);
    LocalsRoundTrip(file, p + |LebU(n)|, ls);
    ExpandClusters(ls);
    assert LoadableFn(types, FnDef(t, ls, [])) <==> t < |types| && |types[t].params + ls| <= 255 && ValueTypes(types[t].params + ls);
  }

  lemma EntryRoundTrip(file: seq<byte>, p: nat, types: seq<FuncType>, f: FnDef)
    requires |f.locals| < 0x1_0000_0000 && |EncBody(f)| < 0x1_0000_0000 && At(file, p, EncEntry(f))
    ensures var r := DecEntry(types, f.t, file, p);
      && (r.Some? <==> LoadableFn(types, f))
      && (r.Some? ==> r.value.next == p + |EncEntry(f)| && Describes(file, types, r.value.info, f))
  {
    hide At, LebU, EncLocals, DecEntry, PrefixSums, ValueTypes;
    var n := |EncBody(f)|;
    AtConcat(file, p, LebU(n), EncBody(f));
    var q := p + |LebU(n)|;
    AtConcat(file, q, EncLocals(f.locals), f.code + [OP_END]);
    AtConcat(file, p, LebU(n), EncLocals(f.locals));
    EntryIs(file, p, types, f.t, n, f.locals);
  }

  lemma {:induction false} EntriesRoundTrip(file: seq<byte>, p: nat, types: seq<FuncType>, fns: seq<FnDef>)
    requires (forall f :: f in fns ==> |f.locals| < 0x1_0000_0000 && |EncBody(f)| < 0x1_0000_0000)
    requires At(file, p, EncVec(fns, EncEntry))
    ensures var r := DecEntries(types, TypeIndices(fns), file, p);
      && (r.Some? <==> forall i :: 0 <= i < |fns| ==> LoadableFn(types, fns[i]))
      && (r.Some? ==> |r.value| == |fns| && forall i :: 0 <= i < |fns| ==> Describes(file, types, r.value[i], fns[i]))
    decreases |fns|
  {
    hide At, DecEntry, EncEntry, Describes, LoadableFn;
    if fns != [] {
      AtConcat(file, p, EncEntry(fns[0]), EncVec(fns[1..], EncEntry));
      EntryRoundTrip(file, p, types, fns[0]);
      assert TypeIndices(fns)[1..] == TypeIndices(fns[1..]);
      var rest := fns[1..];
      EntriesRoundTrip(file, p + |EncEntry(fns[0])|, types, rest);
      var r := DecEntries(types, TypeIndices(fns), file, p);
      if forall i :: 0 <= i < |rest| ==> LoadableFn(types, rest[i]) {
        forall i | 1 <= i < |fns| ensures LoadableFn(types, fns[i]) { assert fns[i] == rest[i - 1]; }
        if r.Some? {
          forall i | 0 <= i < |fns| ensures Describes(file, types, r.value[i], fns[i]) {
            if i > 0 { assert fns[i] == rest[i - 1]; }
          }
        }
      } else {
        var j :| 0 <= j < |rest| && !LoadableFn(types, rest[j]);
        assert fns[j + 1] == rest[j];
      }
    }
  }

  // ----- the whole file -----

  lemma FitParts(a: seq<Chunk>, b: seq<Chunk>)
    requires ChunksFit(a + b)
    ensures ChunksFit(a) && ChunksFit(b)
  {
    forall i | 0 <= i < |a| ensures |a[i].payload| < 0x8000_0000 { assert (a + b)[i] == a[i]; }
    forall i | 0 <= i < |b| ensures |b[i].payload| < 0x8000_0000 { assert (a + b)[|a| + i] == b[i]; }
  }

  lemma FromDatasLoads(file: seq<byte>, code: nat, p: nat, d: ModuleDef, l: Loaded) returns (read: seq<Data>)
    requires ChunksFit(FromDatas(d)) && |d.datas| < 0x1_0000_0000
      && (forall x :: x in d.datas ==> |x.bytes| < 0x1_0000_0000)
    requires At(file, p, EncVec(FromDatas(d), EncSection)) && l.datas == []
    ensures SameDatas(read, d.datas) && LoadSections(file, code, Place(p, FromDatas(d)), l) == Some(l.(datas := read))
  {
    hide At, LebU, EncData, DecVec, ReadU32;
    read := [];
    if d.datas != [] {
      var c := Chunk(11, EncList(d.datas, EncData));
      assert FromDatas(d) == [c] && FromDatas(d)[0] == c;
      var s := LoadOne(file, code, p, c, l);
      AtConcat(file, s.begin, LebU(|d.datas|), EncVec(d.datas, EncData));
      LebU32RoundTrip(file, s.begin, |d.datas|);
      read := DatasVec(file, s.begin + |LebU(|d.datas|)|, d.datas);
    }
  }

  /** A section of one kind, whose decoding is known, and then the rest. */
  lemma ManyLoads<T>(file: seq<byte>, code: nat, p: nat, xs: seq<T>, id: byte,
      enc: T -> seq<byte>, rest: seq<Chunk>, l: Loaded)
      returns (s: Section, q: nat)
    requires ChunksFit(EncMany(xs, id, enc) + rest) && At(file, p, EncVec(EncMany(xs, id, enc) + rest, EncSection))
    ensures xs != [] ==> s.id == id && At(file, s.begin, EncList(xs, enc))
    ensures ChunksFit(rest) && At(file, q, EncVec(rest, EncSection))
    ensures LoadSections(file, code, Place(p, EncMany(xs, id, enc) + rest), l)
         == Then(file, code, Place(q, rest), if xs == [] then Some(l) else LoadSection(file, code, s, l))
  {
    hide At, LoadSection, EncList;
    var group := EncMany(xs, id, enc);
    FitParts(group, rest);
    LoadGroup(file, code, p, group, rest, l);
    q := p + |EncVec(group, EncSection)|;
    s := Section(id, 0, 0);
    if xs != [] {
      var c := Chunk(id, EncList(xs, enc));
      assert group == [c] && group[0] == c;
      s := LoadOne(file, code, p, c, l);
    }
  }

  lemma OptionalLoads<T>(file: seq<byte>, code: nat, p: nat, o: Option<T>, id: byte,
      enc: T -> seq<byte>, rest: seq<Chunk>, l: Loaded)
      returns (s: Section, q: nat)
    requires ChunksFit(EncOptional(o, id, enc) + rest)
      && At(file, p, EncVec(EncOptional(o, id, enc) + rest, EncSection))
    ensures o.Some? ==> s.id == id && At(file, s.begin, enc(o.value))
    ensures ChunksFit(rest) && At(file, q, EncVec(rest, EncSection))
    ensures LoadSections(file, code, Place(p, EncOptional(o, id, enc) + rest), l)
         == Then(file, code, Place(q, rest), if o.None? then Some(l) else LoadSection(file, code, s, l))
  {
    hide At, LoadSection;
    var group := EncOptional(o, id, enc);
    FitParts(group, rest);
    LoadGroup(file, code, p, group, rest, l);
    q := p + |EncVec(group, EncSection)|;
    s := Section(id, 0, 0);
    if o.Some? {
      var c := Chunk(id, enc(o.value));
      assert group == [c] && group[0] == c;
      s := LoadOne(file, code, p, c, l);
    }
  }

  /** The sections behind the export section. */
  lemma EndLoads(file: seq<byte>, code: nat, p: nat, d: ModuleDef, l: Loaded) returns (read: seq<Data>)
    requires Fits32(d) && ChunksFit(FromStart(d)) && At(file, p, EncVec(FromStart(d), EncSection))
    requires l.start == None && l.elems == [] && l.datas == []
    ensures SameDatas(read, d.datas)
    ensures LoadSections(file, code, Place(p, FromStart(d)), l)
      == Some(l.(start := d.start, elems := d.elems, datas := read))
  {
    hide At, EncVec, EncList, LebU, ReadU32, LoadSections, EncMany, EncOptional, FromDatas, Fits32, SameDatas, DecList,
      LoadSection;
    var s, q := OptionalLoads(file, code, p, d.start, 8, EncIndex, FromElems(d), l);
    if d.start.Some? { StartLoads(file, code, s, d, l); }
    var l1 := l.(start := d.start);
    s, q := ManyLoads(file, code, q, d.elems, 9, EncElem, FromCode(d), l1);
    if d.elems != [] { ElemsLoad(file, code, s, d, l1); }
    var l2 := l1.(elems := d.elems);
    s, q := ManyLoads(file, code, q, d.fns, 10, EncEntry, FromDatas(d), l2);
    if d.fns != [] { CodeIgnored(file, code, s, l2); }
    DatasFit(d);
    read := FromDatasLoads(file, code, q, d, l2);
  }

  lemma CodeIgnored(file: seq<byte>, code: nat, s: Section, l: Loaded)
    requires s.id == 10
    ensures LoadSection(file, code, s, l) == Some(l)
  {
  }

  /** The sections behind the memory section. */
  lemma TailLoads(file: seq<byte>, code: nat, p: nat, d: ModuleDef, l: Loaded) returns (read: seq<Data>)
    requires Fits32(d) && ChunksFit(FromGlobals(d)) && At(file, p, EncVec(FromGlobals(d), EncSection))
    requires l.globals == [] && l.exports == [] && l.start == None && l.elems == [] && l.datas == []
    ensures SameDatas(read, d.datas)
    ensures LoadSections(file, code, Place(p, FromGlobals(d)), l)
         == Some(l.(globals := LoadGlobals(d.globals), exports := d.exports, start := d.start, elems := d.elems, datas := read))
  {
    hide At, EncVec, EncList, LebU, ReadU32, LoadSections, EncMany, FromStart, Fits32, SameDatas, DecList, LoadSection;
    var s, q := ManyLoads(file, code, p, d.globals, 6, EncGlobal, FromExports(d), l);
    if d.globals != [] { GlobalsLoad(file, code, s, d, l); }
    var l1 := l.(globals := LoadGlobals(d.globals));
    s, q := ManyLoads(file, code, q, d.exports, 7, EncExport, FromStart(d), l1);
    if d.exports != [] { ExportsLoad(file, code, s, d, l1); }
    read := EndLoads(file, code, q, d, l1.(exports := d.exports));
  }

  lemma DatasFit(d: ModuleDef)
    requires Fits32(d)
    ensures |d.datas| < 0x1_0000_0000 && (forall x :: x in d.datas ==> |x.bytes| < 0x1_0000_0000)
  {
  }

  lemma GlobalsLoad(file: seq<byte>, code: nat, s: Section, d: ModuleDef, l: Loaded)
    requires Fits32(d) && s.id == 6 && At(file, s.begin, EncList(d.globals, EncGlobal))
    ensures LoadSection(file, code, s, l) == Some(l.(globals := LoadGlobals(d.globals)))
  {
    hide At, LebU, EncGlobal, DecVec, ReadU32, SectionsOf;
    AtConcat(file, s.begin, LebU(|d.globals|), EncVec(d.globals, EncGlobal));
    LebU32RoundTrip(file, s.begin, |d.globals|);
    GlobalsVec(file, s.begin + |LebU(|d.globals|)|, d.globals);
  }

  lemma ExportsLoad(file: seq<byte>, code: nat, s: Section, d: ModuleDef, l: Loaded)
    requires Fits32(d) && s.id == 7 && At(file, s.begin, EncList(d.exports, EncExport))
    ensures LoadSection(file, code, s, l) == Some(l.(exports := d.exports))
  {
    hide At, EncList, DecList, SectionsOf;
    ExportsList(file, s.begin, d.exports);
  }

  lemma StartLoads(file: seq<byte>, code: nat, s: Section, d: ModuleDef, l: Loaded)
    requires Fits32(d) && s.id == 8 && d.start.Some? && At(file, s.begin, EncIndex(d.start.value))
    ensures LoadSection(file, code, s, l) == Some(l.(start := d.start))
  {
    hide At, LebU, ReadU32, SectionsOf;
    LebU32RoundTrip(file, s.begin, d.start.value);
  }

  lemma ElemsLoad(file: seq<byte>, code: nat, s: Section, d: ModuleDef, l: Loaded)
    requires Fits32(d) && s.id == 9 && At(file, s.begin, EncList(d.elems, EncElem))
    ensures LoadSection(file, code, s, l) == Some(l.(elems := d.elems))
  {
    hide At, EncList, DecList, SectionsOf;
    ElemsList(file, s.begin, d.elems);
  }

  lemma LimitsLoad(file: seq<byte>, code: nat, s: Section, x: Limits, l: Loaded)
    ensures s.id == 4 && At(file, s.begin, EncTable(x)) ==> LoadSection(file, code, s, l) == Some(l.(table := Some(x)))
    ensures s.id == 5 && At(file, s.begin, EncMemory(x))
      ==> LoadSection(file, code, s, l) == Some(l.(memory := Some(x)))
  {
    hide At, LebU, ReadU32, EncLimits, DecLimits;
    OneByte();
    if s.id == 4 && At(file, s.begin, EncTable(x)) {
      AtConcat(file, s.begin, LebU(1), [0x70] + EncLimits(x));
      LebU32RoundTrip(file, s.begin, 1);
      AtCons(file, s.begin + 1, 0x70, EncLimits(x));
      LimitsRoundTrip(file, s.begin + 2, x);
    }
    if s.id == 5 && At(file, s.begin, EncMemory(x)) {
      AtConcat(file, s.begin, LebU(1), EncLimits(x));
      LebU32RoundTrip(file, s.begin, 1);
      LimitsRoundTrip(file, s.begin + 1, x);
    }
  }

  lemma OneByte()
    ensures |LebU(1)| == 1
  {
  }

  /** The functions a module describes, given where its code section starts. */
  ghost function Functions(file: seq<byte>, code: nat, d: ModuleDef): Option<seq<FnInfo>>
  {
    Append(ImportInfos(d.types, d.imports), DecEntries(d.types, TypeIndices(d.fns), file, code + |LebU(|d.fns|)|))
  }

  lemma FunctionsLoad(file: seq<byte>, code: nat, s: Section, d: ModuleDef, l: Loaded)
    requires Fits32(d) && s.id == 3 && At(file, s.begin, EncList(TypeIndices(d.fns), EncIndex))
    requires l.types == d.types && l.imports == d.imports && At(file, code, EncList(d.fns, EncEntry))
    ensures LoadSection(file, code, s, l)
         == match Functions(file, code, d) case Some(infos) => Some(l.(fns := infos)) case None => None
  {
    hide At, LebU, ReadU32, DecList, DecEntries, ImportInfos, SectionsOf, EncVec;
    var ts := TypeIndices(d.fns);
    assert AllIndices(ts) by {
      forall x | x in ts ensures x < 0x1_0000_0000 {
        var i :| 0 <= i < |ts| && ts[i] == x;
        assert d.fns[i] in d.fns;
      }
    }
    IndicesRoundTrip(file, s.begin, ts);
    AtConcat(file, code, LebU(|d.fns|), EncVec(d.fns, EncEntry));
    LebU32RoundTrip(file, code, |d.fns|);
  }

  lemma ImportsLoad(file: seq<byte>, code: nat, s: Section, d: ModuleDef, l: Loaded)
    requires Fits32(d) && s.id == 2 && At(file, s.begin, EncList(d.imports, EncImport))
    ensures LoadSection(file, code, s, l) == Some(l.(imports := d.imports))
  {
    hide At, EncList, DecList, SectionsOf;
    ImportsList(file, s.begin, d.imports);
  }

  lemma TypesLoad(file: seq<byte>, code: nat, s: Section, d: ModuleDef, l: Loaded)
    requires Fits32(d) && s.id == 1 && At(file, s.begin, EncList(d.types, EncType))
    ensures LoadSection(file, code, s, l) == Some(l.(types := d.types))
  {
    hide At, EncList, DecList, SectionsOf;
    TypesList(file, s.begin, d.types);
  }

  /** A module as loaded: everything as written, with the given functions and data segments. */
  ghost function Image(d: ModuleDef, infos: seq<FnInfo>, read: seq<Data>): Loaded
  {
    Loaded(d.types, d.imports, infos, d.table, d.memory, LoadGlobals(d.globals), d.exports, d.start, d.elems, read)
  }

  lemma MiddleLoads(file: seq<byte>, code: nat, p: nat, d: ModuleDef, l: Loaded) returns (read: seq<Data>)
    requires Fits32(d) && ChunksFit(FromTable(d)) && At(file, p, EncVec(FromTable(d), EncSection))
    requires l == Loaded(d.types, d.imports, l.fns, None, None, [], [], None, [], [])
    ensures SameDatas(read, d.datas)
    ensures LoadSections(file, code, Place(p, FromTable(d)), l) == Some(Image(d, l.fns, read))
  {
    hide At, EncVec, EncList, LebU, ReadU32, LoadSections, EncMany, EncOptional, FromGlobals, Fits32, SameDatas,
      EncTable, EncMemory, LoadSection;
    var s, q := OptionalLoads(file, code, p, d.table, 4, EncTable, FromMemory(d), l);
    if d.table.Some? { LimitsLoad(file, code, s, d.table.value, l); }
    var l1 := l.(table := d.table);
    s, q := OptionalLoads(file, code, q, d.memory, 5, EncMemory, FromGlobals(d), l1);
    if d.memory.Some? { LimitsLoad(file, code, s, d.memory.value, l1); }
    read := TailLoads(file, code, q, d, l1.(memory := d.memory));
  }

  lemma SectionsLoad(file: seq<byte>, code: nat, p: nat, d: ModuleDef) returns (read: seq<Data>)
    requires Fits32(d) && d.fns != [] && At(file, p, EncVec(SectionsOf(d), EncSection))
      && At(file, code, EncList(d.fns, EncEntry))
    ensures SameDatas(read, d.datas)
    ensures LoadSections(file, code, Place(p, SectionsOf(d)), NOTHING)
         == match Functions(file, code, d) case Some(infos) => Some(Image(d, infos, read)) case None => None
  {
    hide At, EncVec, EncList, LebU, ReadU32, LoadSections, FromTable, SameDatas, LoadSection, Functions, TypeIndices;
    var first := [Chunk(1, EncList(d.types, EncType))];
    FitParts(first, FromImports(d));
    LoadGroup(file, code, p, first, FromImports(d), NOTHING);
    var q := p + |EncVec(first, EncSection)|;
    assert first[0] == Chunk(1, EncList(d.types, EncType));
    var s := LoadOne(file, code, p, first[0], NOTHING);
    TypesLoad(file, code, s, d, NOTHING);
    var l1 := NOTHING.(types := d.types);
    s, q := ManyLoads(file, code, q, d.imports, 2, EncImport, FromFunctions(d), l1);
    if d.imports != [] { ImportsLoad(file, code, s, d, l1); }
    var l2 := l1.(imports := d.imports);
    s, q := ManyLoads(file, code, q, TypeIndices(d.fns), 3, EncIndex, FromTable(d), l2);
    assert TypeIndices(d.fns) != [];
    FunctionsLoad(file, code, s, d, l2);
    match Functions(file, code, d)
    case Some(infos) => read := MiddleLoads(file, code, q, d, l2.(fns := infos));
    case None => read := MiddleLoads(file, code, q, d, l2);
  }

  // ----- finding the code section -----

  lemma {:induction false} CodeSkips(p: nat, a: seq<Chunk>, b: seq<Chunk>)
    requires NoCodeIn(a)
    ensures CodeBegin(Place(p, a + b)) == CodeBegin(Place(p + |EncVec(a, EncSection)|, b))
    decreases |a|
  {
    hide LebU, Place, EncVec, EncSection;
    if a == [] {
      PlaceNone(p);
      assert a + b == b;
    } else {
      assert (a + b)[1..] == a[1..] + b;
      PlaceStep(p, a);
      PlaceStep(p, a + b);
      CodeSkips(p + |EncSection(a[0])|, a[1..], b);
    }
  }

  predicate NoCodeIn(cs: seq<Chunk>) { forall i :: 0 <= i < |cs| ==> cs[i].id != 10 }

  lemma NoCodeConcat(a: seq<Chunk>, b: seq<Chunk>)
    requires NoCodeIn(a) && NoCodeIn(b)
    ensures NoCodeIn(a + b)
  {
  }

  function UpToTable(d: ModuleDef): seq<Chunk>
  {
    [Chunk(1, EncList(d.types, EncType))]
    + (EncMany(d.imports, 2, EncImport) + (EncMany(TypeIndices(d.fns), 3, EncIndex) + EncOptional(d.table, 4, EncTable)))
  }

  function UpToElems(d: ModuleDef): seq<Chunk>
  {
    EncOptional(d.memory, 5, EncMemory)
    + (EncMany(d.globals, 6, EncGlobal)
    + (EncMany(d.exports, 7, EncExport) + (EncOptional(d.start, 8, EncIndex) + EncMany(d.elems, 9, EncElem))))
  }

  /** The groups before the code section have other ids. */
  function BeforeCode(d: ModuleDef): seq<Chunk> { UpToTable(d) + UpToElems(d) }

  lemma BeforeCodeIds(d: ModuleDef)
    ensures NoCodeIn(BeforeCode(d))
  {
    NoCodeConcat(EncMany(TypeIndices(d.fns), 3, EncIndex), EncOptional(d.table, 4, EncTable));
    NoCodeConcat(EncMany(d.imports, 2, EncImport), EncMany(TypeIndices(d.fns), 3, EncIndex) + EncOptional(d.table, 4, EncTable));
    var a, b := EncOptional(d.start, 8, EncIndex), EncMany(d.elems, 9, EncElem);
    NoCodeConcat(a, b);
    NoCodeConcat(EncMany(d.exports, 7, EncExport), a + b);
    NoCodeConcat(EncMany(d.globals, 6, EncGlobal), EncMany(d.exports, 7, EncExport) + (a + b));
    NoCodeConcat(EncOptional(d.memory, 5, EncMemory), EncMany(d.globals, 6, EncGlobal) + (EncMany(d.exports, 7, EncExport) + (a + b)));
    NoCodeConcat(UpToTable(d), UpToElems(d));
  }

  lemma SplitAtCode(d: ModuleDef)
    ensures SectionsOf(d) == BeforeCode(d) + FromCode(d)
  {
    hide EncMany, EncOptional, FromDatas;
  }

  lemma CodeFound(file: seq<byte>, p: nat, d: ModuleDef)
    requires ChunksFit(SectionsOf(d)) && At(file, p, EncVec(SectionsOf(d), EncSection))
    ensures var c := CodeBegin(Place(p, SectionsOf(d)));
      (c.Some? <==> d.fns != []) && (c.Some? ==> At(file, c.value, EncList(d.fns, EncEntry)))
  {
    hide At, LebU, BeforeCode, FromCode, SectionsOf, NoCodeIn, EncList, EncVec, CodeBegin, Place;
    SplitAtCode(d);
    var a, b := BeforeCode(d), FromCode(d);
    FitParts(a, b);
    BeforeCodeIds(d);
    CodeSkips(p, a, b);
    PlaceConcat(p, a, b);
    AtConcat(file, p, EncVec(a, EncSection), EncVec(b, EncSection));
    CodeFirst(file, p + |EncVec(a, EncSection)|, d);
  }

  lemma CodeFirst(file: seq<byte>, q: nat, d: ModuleDef)
    requires ChunksFit(FromCode(d)) && At(file, q, EncVec(FromCode(d), EncSection))
    ensures var c := CodeBegin(Place(q, FromCode(d)));
      (c.Some? <==> d.fns != []) && (c.Some? ==> At(file, c.value, EncList(d.fns, EncEntry)))
  {
    hide At, LebU, EncList, EncVec, Place, EncSection;
    var b := FromCode(d);
    if d.fns != [] {
      var c := Chunk(10, EncList(d.fns, EncEntry));
      assert b[0] == c && b == [c] + FromDatas(d);
      PlaceStep(q, b);
      AtConcat(file, q, EncSection(c), EncVec(b[1..], EncSection));
      SectionAt(file, q, c);
    } else {
      assert b == FromDatas(d);
      NoCode(q, b);
    }
  }

  lemma NoCode(p: nat, b: seq<Chunk>)
    requires |b| <= 1 && (|b| == 1 ==> b[0].id != 10)
    ensures CodeBegin(Place(p, b)) == None
  {
    if |b| == 1 { assert b[1..] == [] && Place(p, b)[1..] == []; }
  }

  // ----- the module round trip -----

  /** Every function within the loader's limits. */
  ghost predicate Loadable(d: ModuleDef)
  {
    ImportInfos(d.types, d.imports).Some? && forall i :: 0 <= i < |d.fns| ==> LoadableFn(d.types, d.fns[i])
  }

  /** A loaded module says what the definition says: d's own parts as written, and where each function's code lies. */
  ghost predicate Reflects(file: seq<byte>, l: Loaded, d: ModuleDef)
  {
    && l == Image(d, l.fns, l.datas) && SameDatas(l.datas, d.datas)
    && ImportInfos(d.types, d.imports).Some? && |l.fns| == |d.imports| + |d.fns|
    && l.fns[..|d.imports|] == ImportInfos(d.types, d.imports).value
    && forall i :: 0 <= i < |d.fns| ==> Describes(file, d.types, l.fns[|d.imports| + i], d.fns[i])
  }

  lemma {:induction false} ImportInfosCount(types: seq<FuncType>, imports: seq<Import>)
    ensures var r := ImportInfos(types, imports); r.Some? ==> |r.value| == |imports|
  {
    if imports != [] { ImportInfosCount(types, imports[1..]); }
  }

  lemma FunctionsReflect(file: seq<byte>, code: nat, d: ModuleDef, read: seq<Data>)
    requires Fits32(d) && At(file, code, EncList(d.fns, EncEntry)) && SameDatas(read, d.datas)
    ensures Functions(file, code, d).Some? <==> Loadable(d)
    ensures Functions(file, code, d).Some? ==> Reflects(file, Image(d, Functions(file, code, d).value, read), d)
  {
    hide At, LebU, SectionsOf, EncVec, Describes, LoadableFn, SameDatas, DecEntries, ImportInfos;
    AtConcat(file, code, LebU(|d.fns|), EncVec(d.fns, EncEntry));
    EntriesRoundTrip(file, code + |LebU(|d.fns|)|, d.types, d.fns);
    ImportInfosCount(d.types, d.imports);
    var a, b := ImportInfos(d.types, d.imports), DecEntries(d.types, TypeIndices(d.fns), file, code + |LebU(|d.fns|)|);
    if a.Some? && b.Some? {
      var infos := a.value + b.value;
      assert infos[..|a.value|] == a.value;
      forall i | 0 <= i < |d.fns| ensures Describes(file, d.types, infos[|d.imports| + i], d.fns[i]) {
        assert infos[|d.imports| + i] == b.value[i];
      }
    }
  }

  /**
   Module round trip: the file of a module whose numbers fit loads exactly when the module defines a function
   and every function is within the loader's limits, and what is loaded is what was written.
   */
  lemma LoadOfModule(d: ModuleDef)
    requires Fits32(d)
    ensures LoadFile(EncModule(d)).Some? <==> d.fns != [] && Loadable(d)
    ensures LoadFile(EncModule(d)).Some? ==> Reflects(EncModule(d), LoadFile(EncModule(d)).value, d)
  {
    hide At, LebU, SectionsOf, EncVec, LoadSections, Place, Split, CodeBegin, Functions, Loadable, Reflects, Image,
      SameDatas, EncList;
    var file := EncModule(d);
    var bytes := EncVec(SectionsOf(d), EncSection);
    assert file[..8] == HEADER;
    HeaderThen(d);
    SplitOfPlaced(file, 8, SectionsOf(d));
    CodeFound(file, 8, d);
    if d.fns != [] {
      var code := CodeBegin(Place(8, SectionsOf(d))).value;
      AtLeastTwo(d);
      var read := SectionsLoad(file, code, 8, d);
      FunctionsReflect(file, code, d, read);
    }
  }

  lemma HeaderThen(d: ModuleDef)
    ensures At(EncModule(d), 8, EncVec(SectionsOf(d), EncSection))
      && |EncModule(d)| == 8 + |EncVec(SectionsOf(d), EncSection)|
  {
    hide SectionsOf, EncVec;
    assert EncModule(d)[8..] == EncVec(SectionsOf(d), EncSection);
  }

  lemma {:induction false} PlaceCount(p: nat, cs: seq<Chunk>)
    ensures |Place(p, cs)| == |cs|
    decreases |cs|
  {
    if cs != [] { PlaceCount(p + 1 + |LebU(|cs[0].payload|)| + |cs[0].payload|, cs[1..]); }
  }

  lemma AtLeastTwo(d: ModuleDef)
    requires d.fns != []
    ensures |Place(8, SectionsOf(d))| >= 2
  {
    hide BeforeCode, FromDatas, SectionsOf;
    PlaceCount(8, SectionsOf(d));
    SplitAtCode(d);
    BeforeCodeSome(d);
  }

  lemma BeforeCodeSome(d: ModuleDef)
    ensures |BeforeCode(d)| >= 1
  {
  }

  // ----- files cut short -----

  lemma {:induction false} RawOfPrefix(code: seq<byte>, n: nat, p: nat, k: nat, signed: bool)
    requires n <= |code|
    ensures LebRaw(code[..n], p, k, signed) in {RawPastEnd, LebRaw(code, p, k, signed)}
    decreases k
  {
    if k > 0 && p < n && code[p] >= 0x80 { RawOfPrefix(code, n, p + 1, k - 1, signed); }
  }

  lemma {:induction false} CutSplit(file: seq<byte>, n: nat, p: nat, cs: seq<Chunk>)
    requires ChunksFit(cs) && At(file, p, EncVec(cs, EncSection)) && p <= n < p + |EncVec(cs, EncSection)|
    requires n <= |file| && forall i :: 0 <= i < |cs| - 1 ==> cs[i].id != 10
    ensures var r := Split(file[..n], p, n); r.Some? ==> CodeBegin(r.value) == None
    decreases |cs|
  {
    hide At, LebU, EncSection, LebRaw;
    if p < n {
      AtConcat(file, p, EncSection(cs[0]), EncVec(cs[1..], EncSection));
      SectionAt(file, p, cs[0]);
      RawOfPrefix(file, n, p + 1, 5, false);
      var next := p + |EncSection(cs[0])|;
      if ReadU32(file[..n], p + 1).Got? && next <= n { CutSplit(file, n, next, cs[1..]); }
    }
  }

  /** A file without data segments, cut anywhere, does not load: its last section is the code. */
  lemma CutLoadsIff(d: ModuleDef, n: nat)
    requires Fits32(d) && d.fns != [] && Loadable(d) && d.datas == [] && n <= |EncModule(d)|
    ensures LoadFile(EncModule(d)[..n]).Some? <==> n == |EncModule(d)|
  {
    hide At, EncVec, LoadSections, Split, Loadable, EncMany;
    var file, cs := EncModule(d), SectionsOf(d);
    if n == |file| {
      assert file[..n] == file;
      LoadOfModule(d);
    } else if n >= 8 {
      HeaderThen(d);
      SplitAtCode(d);
      BeforeCodeIds(d);
      OneCode(d);
      CutSplit(file, n, 8, cs);
    }
  }

  lemma OneCode(d: ModuleDef)
    requires d.fns != [] && d.datas == []
    ensures |FromCode(d)| == 1
  {
  }
}
