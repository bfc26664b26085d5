/** The binary module format (section 5.5 of the WebAssembly Core Specification 1.0) as the assembler writes it. */
module Sections {
  import opened Bytes
  import opened Leb
  import opened Isa

  datatype FuncType = FuncType(params: seq<byte>, results: seq<byte>)

  datatype Import = Import(from: seq<byte>, name: seq<byte>, t: nat)

  datatype Limits = Limits(min: u32, max: Option<u32>)

  datatype Init = I32(v: int) | I64(v: int) | OfGlobal(i: nat)

  datatype Global = Global(t: byte, mutable: bool, init: Init)

  datatype Export = Export(name: seq<byte>, kind: byte, index: nat)

  datatype Elem = Elem(offset: u32, fns: seq<nat>)

  datatype Data = Data(offset: u32, bytes: seq<byte>)

  /** A defined function: its type, the types of its locals, its instructions without the last end. */
  datatype FnDef = FnDef(t: nat, locals: seq<byte>, code: seq<byte>)

  datatype ModuleDef = ModuleDef(
    types: seq<FuncType>,
    imports: seq<Import>,
    fns: seq<FnDef>,
    table: Option<Limits>,
    memory: Option<Limits>,
    globals: seq<Global>,
    exports: seq<Export>,
    start: Option<nat>,
    elems: seq<Elem>,
    datas: seq<Data>)

  // ----- vectors -----

  function EncVec<T>(xs: seq<T>, enc: T -> seq<byte>): seq<byte>
  {
    if xs == [] then [] else enc(xs[0]) + EncVec(xs[1..], enc)
  }

  function EncList<T>(xs: seq<T>, enc: T -> seq<byte>): seq<byte> { LebU(|xs|) + EncVec(xs, enc) }

  function EncBytes(bs: seq<byte>): seq<byte> { LebU(|bs|) + bs }

  function DecVec<T>(file: seq<byte>, p: nat, n: nat, dec: (seq<byte>, nat) -> Got<T>): Got<seq<T>>
    decreases n
  {
    if n == 0 then Got([], p)
    else
      match dec(file, p)
      case PastEnd => PastEnd
      case Got(x, q) => Before([x], DecVec(file, q, n - 1, dec))
  }

  function Before<T>(xs: seq<T>, rest: Got<seq<T>>): Got<seq<T>>
  {
    match rest case Got(ys, q) => Got(xs + ys, q) case PastEnd => PastEnd
  }

  function DecList<T>(file: seq<byte>, p: nat, dec: (seq<byte>, nat) -> Got<T>): Got<seq<T>>
  {
    match ReadU32(file, p)
    case Got(n, q) => DecVec(file, q, n, dec)
    case PastEnd => PastEnd
  }

  /** The loops of the decoders: item after item into the result. */
  method ReadVector<T>(file: seq<byte>, p: nat, n: nat, dec: (seq<byte>, nat) -> Got<T>) returns (r: Got<seq<T>>)
    ensures r == DecVec(file, p, n, dec)
  {
    var xs: seq<T>, q := [], p;
    BeforeNone(DecVec(file, p, n, dec));
    for i := 0 to n
      invariant DecVec(file, p, n, dec) == Before(xs, DecVec(file, q, n - i, dec))
    {
      match dec(file, q) {
        case PastEnd => return PastEnd;
        case Got(x, next) =>
          BeforeBefore(xs, [x], DecVec(file, next, n - i - 1, dec));
          xs, q := xs + [x], next;
      }
    }
    assert xs + [] == xs;
    return Got(xs, q);
  }

  lemma BeforeNone<T>(r: Got<seq<T>>)
    ensures Before([], r) == r
  {
    if r.Got? { assert [] + r.value == r.value; }
  }

  lemma BeforeBefore<T>(a: seq<T>, b: seq<T>, r: Got<seq<T>>)
    ensures Before(a, Before(b, r)) == Before(a + b, r)
  {
    if r.Got? { assert a + (b + r.value) == a + b + r.value; }
  }

  /** Reading an item back, wherever it lies in the file. */
  ghost predicate Inverse<T(!new)>(file: seq<byte>, x: T, enc: T -> seq<byte>, dec: (seq<byte>, nat) -> Got<T>)
  {
    forall q: nat :: At(file, q, enc(x)) ==> dec(file, q) == Got(x, q + |enc(x)|)
  }

  /** A vector of items that read back reads back. */
  lemma {:induction false} VecRoundTrip<T(!new)>(file: seq<byte>, p: nat, xs: seq<T>, enc: T -> seq<byte>, dec: (seq<byte>, nat) -> Got<T>)
    requires At(file, p, EncVec(xs, enc)) && forall x :: x in xs ==> Inverse(file, x, enc, dec)
    ensures DecVec(file, p, |xs|, dec) == Got(xs, p + |EncVec(xs, enc)|)
    decreases |xs|
  {
    if xs != [] {
      AtConcat(file, p, enc(xs[0]), EncVec(xs[1..], enc));
      assert Inverse(file, xs[0], enc, dec);
      VecRoundTrip(file, p + |enc(xs[0])|, xs[1..], enc, dec);
      assert [xs[0]] + xs[1..] == xs;
    }
  }

  lemma ListRoundTrip<T(!new)>(file: seq<byte>, p: nat, xs: seq<T>, enc: T -> seq<byte>, dec: (seq<byte>, nat) -> Got<T>)
    requires |xs| < 0x1_0000_0000 && At(file, p, EncList(xs, enc)) && forall x :: x in xs ==> Inverse(file, x, enc, dec)
    ensures DecList(file, p, dec) == Got(xs, p + |EncList(xs, enc)|)
  {
    AtConcat(file, p, LebU(|xs|), EncVec(xs, enc));
    LebU32RoundTrip(file, p, |xs|);
    VecRoundTrip(file, p + |LebU(|xs|)|, xs, enc, dec);
  }

  // ----- items -----

  /** A counted run of bytes. */
  function DecBytes(file: seq<byte>, p: nat): Got<seq<byte>>
  {
    match ReadU32(file, p)
    case Got(n, q) => if q + n <= |file| then Got(file[q..q + n], q + n) else PastEnd
    case PastEnd => PastEnd
  }

  lemma BytesRoundTrip(file: seq<byte>, p: nat, bs: seq<byte>)
    requires |bs| < 0x1_0000_0000 && At(file, p, EncBytes(bs))
    ensures DecBytes(file, p) == Got(bs, p + |EncBytes(bs)|)
  {
    AtConcat(file, p, LebU(|bs|), bs);
    LebU32RoundTrip(file, p, |bs|);
  }

  function EncIndex(i: nat): seq<byte> { LebU(i) }

  function DecIndex(file: seq<byte>, p: nat): Got<nat>
  {
    match ReadU32(file, p) case Got(n, q) => Got(n, q) case PastEnd => PastEnd
  }

  function EncType(t: FuncType): seq<byte> { [0x60] + (EncBytes(t.params) + EncBytes(t.results)) }

  function DecType(file: seq<byte>, p: nat): Got<FuncType>
  {
    if p >= |file| || file[p] != 0x60 then PastEnd
    else
      match DecBytes(file, p + 1)
      case PastEnd => PastEnd
      case Got(params, q) =>
        (match DecBytes(file, q)
         case Got(results, r) => Got(FuncType(params, results), r)
         case PastEnd => PastEnd)
  }

  function EncImport(i: Import): seq<byte> { EncBytes(i.from) + (EncBytes(i.name) + ([0x00] + LebU(i.t))) }

  /** Only functions are imported; the tag byte of anything else is outside this model. */
  function DecImport(file: seq<byte>, p: nat): Got<Import>
  {
    match DecBytes(file, p)
    case PastEnd => PastEnd
    case Got(from, q) =>
      (match DecBytes(file, q)
       case PastEnd => PastEnd
       case Got(name, r) =>
         if r >= |file| || file[r] != 0x00 then PastEnd
         else
           match ReadU32(file, r + 1)
           case Got(t, s) => Got(Import(from, name, t), s)
           case PastEnd => PastEnd)
  }

  function EncExport(e: Export): seq<byte> { EncBytes(e.name) + ([e.kind] + LebU(e.index)) }

  function DecExport(file: seq<byte>, p: nat): Got<Export>
  {
    match DecBytes(file, p)
    case PastEnd => PastEnd
    case Got(name, q) =>
      if q >= |file| then PastEnd
      else
        match ReadU32(file, q + 1)
        case Got(i, r) => Got(Export(name, file[q], i), r)
        case PastEnd => PastEnd
  }

  function EncLimits(l: Limits): seq<byte>
  {
    match l.max
    case Some(m) => [0x01] + (LebU(l.min) + LebU(m))
    case None => [0x00] + LebU(l.min)
  }

  function DecLimits(file: seq<byte>, p: nat): Got<Limits>
  {
    if p >= |file| then PastEnd
    else
      match ReadU32(file, p + 1)
      case PastEnd => PastEnd
      case Got(min, q) =>
        if file[p] % 2 == 0 then Got(Limits(min, None), q)
        else
          match ReadU32(file, q)
          case Got(max, r) => Got(Limits(min, Some(max)), r)
          case PastEnd => PastEnd
  }

  function EncInit(i: Init): seq<byte>
  {
    match i case I32(v) => [0x41] + LebS(v) case I64(v) => [0x42] + LebS(v) case OfGlobal(g) => [0x23] + LebU(g)
  }

  function EncGlobal(g: Global): seq<byte> { [g.t, if g.mutable then 0x01 else 0x00] + (EncInit(g.init) + [OP_END]) }

  /** A global as the loader keeps it: its initial value as 64 bits. */
  datatype LoadedGlobal = LoadedGlobal(t: byte, mutable: bool, bits: u64)

  /** The initial value; one taken from another global reads as 0. */
  function InitBits(i: Init): u64
  {
    match i case I32(v) => Wrap32(v) case I64(v) => Wrap64(v) case OfGlobal(_) => 0
  }

  function LoadGlobal(g: Global): LoadedGlobal { LoadedGlobal(g.t, g.mutable, InitBits(g.init)) }

  function DecInit(file: seq<byte>, p: nat): Got<u64>
  {
    if p >= |file| then PastEnd
    else if file[p] == 0x41 then
      match ReadSigned(file, p + 1, 32) case Got(v, q) => Got(Wrap32(v), q) case PastEnd => PastEnd
    else if file[p] == 0x42 then
      match ReadSigned(file, p + 1, 64) case Got(v, q) => Got(Wrap64(v), q) case PastEnd => PastEnd
    else if file[p] == 0x23 then
      match ReadU32(file, p + 1) case Got(_, q) => Got(0, q) case PastEnd => PastEnd
    else PastEnd
  }

  /** A missing end byte is reported and skipped all the same. */
  function DecGlobal(file: seq<byte>, p: nat): Got<LoadedGlobal>
  {
    if p + 1 >= |file| then PastEnd
    else
      match DecInit(file, p + 2)
      case Got(v, q) => if q < |file| then Got(LoadedGlobal(file[p], file[p + 1] == 0x01, v), q + 1) else PastEnd
      case PastEnd => PastEnd
  }

  function EncOffset(o: u32): seq<byte> { [0x41] + (LebS(Signed32(o)) + [OP_END]) }

  function EncElem(e: Elem): seq<byte> { LebU(0) + (EncOffset(e.offset) + EncList(e.fns, EncIndex)) }

  function DecElem(file: seq<byte>, p: nat): Got<Elem>
  {
    match ReadU32(file, p)
    case PastEnd => PastEnd
    case Got(_, q) =>
      if q >= |file| || file[q] != 0x41 then PastEnd
      else
        match ReadSigned(file, q + 1, 32)
        case PastEnd => PastEnd
        case Got(o, r) =>
          (match DecList(file, r + 1, DecIndex)
           case Got(fns, s) => Got(Elem(Wrap32(o), fns), s)
           case PastEnd => PastEnd)
  }

  function EncData(d: Data): seq<byte> { [0x00] + (EncOffset(d.offset) + EncBytes(d.bytes)) }

  /** The offset, written signed, is read unsigned. */
  function DecData(file: seq<byte>, p: nat): Got<Data>
  {
    match ReadU32(file, p + 2)
    case PastEnd => PastEnd
    case Got(o, q) =>
      (match DecBytes(file, q + 1)
       case Got(bs, r) => Got(Data(o, bs), r)
       case PastEnd => PastEnd)
  }

  // ----- items read back -----

  lemma TypeRoundTrip(file: seq<byte>, p: nat, t: FuncType)
    requires |t.params| < 0x1_0000_0000 && |t.results| < 0x1_0000_0000 && At(file, p, EncType(t))
    ensures DecType(file, p) == Got(t, p + |EncType(t)|)
  {
    hide At, EncBytes, DecBytes;
    AtCons(file, p, 0x60, EncBytes(t.params) + EncBytes(t.results));
    AtConcat(file, p + 1, EncBytes(t.params), EncBytes(t.results));
    BytesRoundTrip(file, p + 1, t.params);
    BytesRoundTrip(file, p + 1 + |EncBytes(t.params)|, t.results);
  }

  lemma ImportRoundTrip(file: seq<byte>, p: nat, i: Import)
    requires |i.from| < 0x1_0000_0000 && |i.name| < 0x1_0000_0000 && i.t < 0x1_0000_0000 && At(file, p, EncImport(i))
    ensures DecImport(file, p) == Got(i, p + |EncImport(i)|)
  {
    hide At, EncBytes, DecBytes, LebU, ReadU32;
    var a, b := EncBytes(i.from), EncBytes(i.name);
    AtConcat(file, p, a, b + ([0x00] + LebU(i.t)));
    AtConcat(file, p + |a|, b, [0x00] + LebU(i.t));
    AtCons(file, p + |a| + |b|, 0x00, LebU(i.t));
    BytesRoundTrip(file, p, i.from);
    BytesRoundTrip(file, p + |a|, i.name);
    LebU32RoundTrip(file, p + |a| + |b| + 1, i.t);
  }

  lemma ExportRoundTrip(file: seq<byte>, p: nat, e: Export)
    requires |e.name| < 0x1_0000_0000 && e.index < 0x1_0000_0000 && At(file, p, EncExport(e))
    ensures DecExport(file, p) == Got(e, p + |EncExport(e)|)
  {
    hide At, EncBytes, DecBytes, LebU, ReadU32;
    var a := EncBytes(e.name);
    AtConcat(file, p, a, [e.kind] + LebU(e.index));
    AtCons(file, p + |a|, e.kind, LebU(e.index));
    BytesRoundTrip(file, p, e.name);
    LebU32RoundTrip(file, p + |a| + 1, e.index);
  }

  lemma LimitsRoundTrip(file: seq<byte>, p: nat, l: Limits)
    requires At(file, p, EncLimits(l))
    ensures DecLimits(file, p) == Got(l, p + |EncLimits(l)|)
  {
    hide At, LebU, ReadU32;
    match l.max
    case Some(m) =>
      AtCons(file, p, 0x01, LebU(l.min) + LebU(m));
      AtConcat(file, p + 1, LebU(l.min), LebU(m));
      LebU32RoundTrip(file, p + 1, l.min);
      LebU32RoundTrip(file, p + 1 + |LebU(l.min)|, m);
    case None =>
      AtCons(file, p, 0x00, LebU(l.min));
      LebU32RoundTrip(file, p + 1, l.min);
  }

  predicate InitOk(i: Init)
  {
    match i
    case I32(v) => -0x8000_0000 <= v < 0x8000_0000
    case I64(v) => -0x8000_0000_0000_0000 <= v < 0x8000_0000_0000_0000
    case OfGlobal(g) => g < 0x1_0000_0000
  }

  lemma InitRoundTrip(file: seq<byte>, p: nat, i: Init)
    requires InitOk(i) && At(file, p, EncInit(i))
    ensures DecInit(file, p) == Got(InitBits(i), p + |EncInit(i)|)
  {
    hide At, LebU, LebS, ReadU32, ReadSigned;
    match i
    case I32(v) => AtCons(file, p, 0x41, LebS(v)); LebS32RoundTrip(file, p + 1, v); WrapTwice(v);
    case I64(v) => AtCons(file, p, 0x42, LebS(v)); LebS64RoundTrip(file, p + 1, v); WrapTwice(v);
    case OfGlobal(g) => AtCons(file, p, 0x23, LebU(g)); LebU32RoundTrip(file, p + 1, g);
  }

  lemma GlobalRoundTrip(file: seq<byte>, p: nat, g: Global)
    requires InitOk(g.init) && At(file, p, EncGlobal(g))
    ensures DecGlobal(file, p) == Got(LoadGlobal(g), p + |EncGlobal(g)|)
  {
    hide EncInit, DecInit, InitBits;
    var head := [g.t, if g.mutable then 0x01 else 0x00];
    AtConcat(file, p, head, EncInit(g.init) + [OP_END]);
    AtBytes(file, p, head);
    AtConcat(file, p + 2, EncInit(g.init), [OP_END]);
    AtBytes(file, p + 2 + |EncInit(g.init)|, [OP_END]);
    InitRoundTrip(file, p + 2, g.init);
  }

  /** The bytes of a segment's offset expression, at p. */
  lemma OffsetAt(file: seq<byte>, p: nat, o: u32)
    requires At(file, p, EncOffset(o))
    ensures p < |file| && file[p] == 0x41 && At(file, p + 1, LebS(Signed32(o)))
      && |EncOffset(o)| == |LebS(Signed32(o))| + 2
    ensures ReadSigned(file, p + 1, 32) == Got(o, p + |EncOffset(o)| - 1)
  {
    hide At, LebS, ReadSigned;
    AtCons(file, p, 0x41, LebS(Signed32(o)) + [OP_END]);
    AtConcat(file, p + 1, LebS(Signed32(o)), [OP_END]);
    LebS32RoundTrip(file, p + 1, Signed32(o));
  }

  lemma IndexInverse(file: seq<byte>, i: nat)
    requires i < 0x1_0000_0000
    ensures Inverse(file, i, EncIndex, DecIndex)
  {
    forall q: nat | At(file, q, EncIndex(i)) ensures DecIndex(file, q) == Got(i, q + |EncIndex(i)|) {
      LebU32RoundTrip(file, q, i);
    }
  }

  predicate AllIndices(xs: seq<nat>) { |xs| < 0x1_0000_0000 && forall x :: x in xs ==> x < 0x1_0000_0000 }

  lemma IndicesRoundTrip(file: seq<byte>, p: nat, xs: seq<nat>)
    requires AllIndices(xs) && At(file, p, EncList(xs, EncIndex))
    ensures DecList(file, p, DecIndex) == Got(xs, p + |EncList(xs, EncIndex)|)
  {
    forall x | x in xs ensures Inverse(file, x, EncIndex, DecIndex) { IndexInverse(file, x); }
    ListRoundTrip(file, p, xs, EncIndex, DecIndex);
  }

  lemma ElemRoundTrip(file: seq<byte>, p: nat, e: Elem)
    requires AllIndices(e.fns) && At(file, p, EncElem(e))
    ensures DecElem(file, p) == Got(e, p + |EncElem(e)|)
  {
    hide At, EncOffset, EncList, DecList, LebU, ReadU32, ReadSigned;
    AtConcat(file, p, LebU(0), EncOffset(e.offset) + EncList(e.fns, EncIndex));
    var q := p + |LebU(0)|;
    AtConcat(file, q, EncOffset(e.offset), EncList(e.fns, EncIndex));
    LebU32RoundTrip(file, p, 0);
    OffsetAt(file, q, e.offset);
    IndicesRoundTrip(file, q + |EncOffset(e.offset)|, e.fns);
    WrapTwice(e.offset);
    assert Wrap32(e.offset) == e.offset;
  }

  /** What the loader reads as the offset of a data segment. */
  function DataOffset(file: seq<byte>, p: nat): u32
  {
    match ReadU32(file, p + 2) case Got(o, _) => o case PastEnd => 0
  }

  /**
   A data segment's bytes are read back; its offset is read back exactly when it is below 2^32 - 2^27: the
   sign bits that the short encoding of a larger one stands for are lost.
   */
  lemma DataRoundTrip(file: seq<byte>, p: nat, d: Data)
    requires |d.bytes| < 0x1_0000_0000 && At(file, p, EncData(d))
    ensures DecData(file, p) == Got(Data(DataOffset(file, p), d.bytes), p + |EncData(d)|)
    ensures DataOffset(file, p) == d.offset <==> d.offset < 0xF800_0000
  {
    hide At, EncBytes, DecBytes, LebS, ReadU32, ReadSigned;
    AtCons(file, p, 0x00, EncOffset(d.offset) + EncBytes(d.bytes));
    AtConcat(file, p + 1, EncOffset(d.offset), EncBytes(d.bytes));
    OffsetAt(file, p + 1, d.offset);
    UnsignedReadOfSigned(file, p + 2, Signed32(d.offset));
    BytesRoundTrip(file, p + 1 + |EncOffset(d.offset)|, d.bytes);
    assert Wrap32(Signed32(d.offset)) == d.offset;
  }

  // ----- function bodies -----

  /** A run of locals of one type. */
  datatype Cluster = Cluster(count: nat, t: byte)

  /** How many of the first types are the same. */
  function RunLength(ts: seq<byte>): (n: nat)
    ensures n <= |ts| && (ts != [] ==> n >= 1)
    ensures forall i :: 0 <= i < n ==> ts[i] == ts[0]
    ensures n < |ts| ==> ts[n] != ts[0]
  {
    if |ts| <= 1 then |ts|
    else if ts[1] != ts[0] then 1
    else
      var n := RunLength(ts[1..]);
      assert forall i :: 0 < i <= n ==> ts[i] == ts[1..][i - 1];
      n + 1
  }

  function Clusters(ts: seq<byte>): seq<Cluster>
    decreases |ts|
  {
    if ts == [] then [] else [Cluster(RunLength(ts), ts[0])] + Clusters(ts[RunLength(ts)..])
  }

  function Repeat(n: nat, t: byte): (r: seq<byte>)
    ensures |r| == n
  {
    seq(n, i => t)
  }

  /** The types a sequence of clusters stands for. */
  function Expand(cs: seq<Cluster>): seq<byte>
  {
    if cs == [] then [] else Repeat(cs[0].count, cs[0].t) + Expand(cs[1..])
  }

  lemma UnfoldClusters(ts: seq<byte>)
    requires ts != []
    ensures var n := RunLength(ts);
      Clusters(ts) == [Cluster(n, ts[0])] + Clusters(ts[n..]) && Clusters(ts)[1..] == Clusters(ts[n..])
      && Repeat(n, ts[0]) == ts[..n]
  {
    hide RunLength;
  }

  /** Run-length encoding loses nothing. */
  lemma {:induction false} ExpandClusters(ts: seq<byte>)
    ensures Expand(Clusters(ts)) == ts
    decreases |ts|
  {
    hide RunLength, Clusters, Repeat;
    if ts != [] {
      var n := RunLength(ts);
      UnfoldClusters(ts);
      ExpandClusters(ts[n..]);
      assert ts == ts[..n] + ts[n..];
    } else {
      NoClusters(ts);
    }
  }

  /** Its clusters are as few as can be: none is empty and no two neighbours have the same type. */
  lemma {:induction false} ClustersAreRuns(ts: seq<byte>)
    ensures forall i :: 0 <= i < |Clusters(ts)| ==> 1 <= Clusters(ts)[i].count <= |ts|
    ensures forall i :: 0 < i < |Clusters(ts)| ==> Clusters(ts)[i].t != Clusters(ts)[i - 1].t
    ensures |Clusters(ts)| <= |ts|
    decreases |ts|
  {
    if ts != [] {
      var n := RunLength(ts);
      var rest := Clusters(ts[n..]);
      ClustersAreRuns(ts[n..]);
      forall i | 0 < i < |Clusters(ts)| ensures Clusters(ts)[i].t != Clusters(ts)[i - 1].t {
        assert Clusters(ts)[i] == rest[i - 1];
        if i > 1 { assert Clusters(ts)[i - 1] == rest[i - 2]; } else { assert rest[0].t == ts[n..][0]; }
      }
    }
  }

  function EncCluster(c: Cluster): seq<byte> { LebU(c.count) + [c.t] }

  function DecCluster(file: seq<byte>, p: nat): Got<Cluster>
  {
    match ReadU32(file, p)
    case Got(n, q) => if q < |file| then Got(Cluster(n, file[q]), q + 1) else PastEnd
    case PastEnd => PastEnd
  }

  function EncLocals(ts: seq<byte>): seq<byte> { EncList(Clusters(ts), EncCluster) }

  lemma LocalsRoundTrip(file: seq<byte>, p: nat, ts: seq<byte>)
    requires |ts| < 0x1_0000_0000 && At(file, p, EncLocals(ts))
    ensures DecList(file, p, DecCluster) == Got(Clusters(ts), p + |EncLocals(ts)|)
  {
    ClustersAreRuns(ts);
    forall c | c in Clusters(ts) ensures Inverse(file, c, EncCluster, DecCluster) { ClusterInverse(file, c); }
    ListRoundTrip(file, p, Clusters(ts), EncCluster, DecCluster);
  }

  lemma ClusterInverse(file: seq<byte>, c: Cluster)
    requires c.count < 0x1_0000_0000
    ensures Inverse(file, c, EncCluster, DecCluster)
  {
    forall q: nat | At(file, q, EncCluster(c)) ensures DecCluster(file, q) == Got(c, q + |EncCluster(c)|) {
      AtConcat(file, q, LebU(c.count), [c.t]);
      LebU32RoundTrip(file, q, c.count);
      AtBytes(file, q + |LebU(c.count)|, [c.t]);
    }
  }

  function EncBody(f: FnDef): seq<byte> { EncLocals(f.locals) + (f.code + [OP_END]) }

  function EncEntry(f: FnDef): seq<byte> { EncBytes(EncBody(f)) }

  /** The cluster loop of assemble_module. */
  method PutLocals(buf: ByteBuf, ts: seq<byte>)
    modifies buf
    ensures buf.data == old(buf.data) + EncLocals(ts)
  {
    hide RunLength, Clusters, EncVec, EncCluster;
    var decl := new ByteBuf();
    var li, clusters := 0, 0;
    ghost var done: seq<Cluster> := [];
    NoClusters(ts);
    while li < |ts|
      invariant li <= |ts| && clusters == |done| && fresh(decl) && decl.data == EncVec(done, EncCluster)
      invariant Clusters(ts) == done + Clusters(ts[li..])
      invariant buf.data == old(buf.data)
    {
      var t := ts[li];
      var cnt := CountRun(ts, li);
      NextCluster(ts, li, cnt, done, decl.data);
      decl.PutLebU32(cnt);
      decl.Put(t);
      done := done + [Cluster(cnt, t)];
      clusters := clusters + 1;
      li := li + cnt;
    }
    NoClusters(ts[li..]);
    assert ts[li..] == [] && done + [] == done;
    buf.PutLebU32(clusters);
    buf.PutBytes(decl.data);
    assert old(buf.data) + LebU(clusters) + decl.data == old(buf.data) + (LebU(clusters) + decl.data);
  }

  method CountRun(ts: seq<byte>, li: nat) returns (cnt: nat)
    requires li < |ts|
    ensures 1 <= cnt <= |ts| - li && cnt == RunLength(ts[li..])
  {
    cnt := 0;
    while li + cnt < |ts| && ts[li + cnt] == ts[li]
      invariant li + cnt <= |ts| && forall i :: li <= i < li + cnt ==> ts[i] == ts[li]
    {
      cnt := cnt + 1;
    }
    RunIs(ts[li..], cnt);
  }

  lemma NoClusters(ts: seq<byte>)
    ensures ts == [] ==> Clusters(ts) == []
    ensures EncVec([], EncCluster) == [] && Clusters(ts) == [] + Clusters(ts[0..])
  {
    assert ts[0..] == ts;
  }

  lemma NextCluster(ts: seq<byte>, li: nat, cnt: nat, done: seq<Cluster>, bytes: seq<byte>)
    requires li + cnt <= |ts| && 1 <= cnt == RunLength(ts[li..]) && Clusters(ts) == done + Clusters(ts[li..])
    requires bytes == EncVec(done, EncCluster)
    ensures Clusters(ts) == done + [Cluster(cnt, ts[li])] + Clusters(ts[li + cnt..])
    ensures bytes + LebU(cnt) + [ts[li]] == EncVec(done + [Cluster(cnt, ts[li])], EncCluster)
  {
    hide LebU, RunLength, Clusters, EncVec;
    assert ts[li..][cnt..] == ts[li + cnt..];
    UnfoldClusters(ts[li..]);
    EncVecSnoc(done, Cluster(cnt, ts[li]), EncCluster);
    assert done + ([Cluster(cnt, ts[li])] + Clusters(ts[li + cnt..]))
      == done + [Cluster(cnt, ts[li])] + Clusters(ts[li + cnt..]);
  }

  lemma RunIs(ts: seq<byte>, n: nat)
    requires 1 <= n <= |ts| && (forall i :: 0 <= i < n ==> ts[i] == ts[0]) && (n < |ts| ==> ts[n] != ts[0])
    ensures RunLength(ts) == n
  {
  }

  lemma {:induction false} EncVecSnoc<T>(xs: seq<T>, x: T, enc: T -> seq<byte>)
    ensures EncVec(xs + [x], enc) == EncVec(xs, enc) + enc(x)
    decreases |xs|
  {
    if xs == [] {
      assert [] + [x] == [x] && [x][1..] == [];
    } else {
      assert (xs + [x])[1..] == xs[1..] + [x];
      EncVecSnoc(xs[1..], x, enc);
    }
  }
}
