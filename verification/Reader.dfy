/** The loader as it runs: a linked list of sections, and one module whose fields each section fills in. */
module Reader {
  import opened Bytes
  import opened Leb
  import opened Isa
  import opened Machine
  import opened Sections
  import opened Loader

  /** section_listnode. */
  class SectionNode {
    var section: Section
    var next: SectionNode?

    constructor (section: Section)
      ensures this.section == section && next == null
    {
      this.section := section;
      next := null;
    }
  }

  /** The nodes hold the sections; each points to its successor, and a lone node to itself. */
  ghost predicate Linked(nodes: seq<SectionNode>, ss: seq<Section>)
    reads nodes
  {
    && |nodes| == |ss| && (forall i :: 0 <= i < |nodes| ==> nodes[i].section == ss[i])
    && (forall i, j :: 0 <= i < j < |nodes| ==> nodes[i] != nodes[j])
    && (forall i :: 0 <= i < |nodes| - 1 ==> nodes[i].next == nodes[i + 1])
    && (|nodes| == 1 ==> nodes[0].next == nodes[0])
    && (|nodes| > 1 ==> nodes[|nodes| - 1].next == null)
  }

  method ReadNumber(file: seq<byte>, p: nat) returns (r: Got<u32>)
    ensures r == ReadU32(file, p)
  {
    var n := ReadLeb(file, p, 5, 32, false);
    match n {
      case Got(v, q) => return Got(v, q);
      case PastEnd => return PastEnd;
    }
  }

  method ReadList<T>(file: seq<byte>, p: nat, dec: (seq<byte>, nat) -> Got<T>) returns (r: Got<seq<T>>)
    ensures r == DecList(file, p, dec)
  {
    var n := ReadNumber(file, p);
    if n.PastEnd? { return PastEnd; }
    r := ReadVector(file, n.next, n.value, dec);
  }

  /** The list so far, from its first node to its last. */
  ghost predicate Chain(head: SectionNode?, current: SectionNode?, nodes: seq<SectionNode>, ss: seq<Section>)
    reads nodes
  {
    Linked(nodes, ss) && (nodes == [] ==> head == null) && (nodes != [] ==> head == nodes[0] && current == nodes[|nodes| - 1])
  }

  /** Linking one more node: the first is linked to itself. */
  method Link(head: SectionNode?, current: SectionNode?, node: SectionNode, ghost nodes: seq<SectionNode>,
      ghost ss: seq<Section>)
      returns (head': SectionNode)
    requires Chain(head, current, nodes, ss) && node !in nodes && node.next == null
    modifies node, nodes
    ensures Chain(head', node, nodes + [node], ss + [node.section]) && node.section == old(node.section)
  {
    head' := if head == null then node else head;
    var last := if head == null then node else current;
    last.next := node;
  }

  /** create_section_list. */
  method CreateSectionList(file: seq<byte>, p: nat, end: nat) returns (head: SectionNode?,
      ghost nodes: seq<SectionNode>)
    ensures head != null <==> Split(file, p, end).Some? && p < end
    ensures head != null ==> Linked(nodes, Split(file, p, end).value) && nodes != [] && head == nodes[0]
    ensures fresh(nodes)
  {
    hide Linked, ReadU32;
    var buf := p;
    head, nodes := null, [];
    var current: SectionNode? := null;
    ghost var ss: seq<Section> := [];
    AppendNone(Split(file, p, end));
    NoChain();
    while buf < end
      invariant fresh(nodes) && Chain(head, current, nodes, ss) && (nodes == [] <==> buf == p)
      invariant Split(file, p, end) == Append(Some(ss), Split(file, buf, end))
      decreases end - buf
    {
      var size := ReadNumber(file, buf + 1);
      NeverBack(file, buf + 1);
      if size.PastEnd? || size.value >= 0x8000_0000 || buf >= |file| { return null, []; }
      var s := Section(file[buf], size.next, size.value);
      AppendCons(ss, s, Split(file, size.next + size.value, end));
      var node := new SectionNode(s);
      head := Link(head, current, node, nodes, ss);
      current, nodes, ss := node, nodes + [node], ss + [s];
      buf := size.next + size.value;
    }
    if buf != end { return null, []; }
    assert ss + [] == ss;
  }

  lemma NeverBack(file: seq<byte>, p: nat)
    ensures ReadU32(file, p).Got? ==> ReadU32(file, p).next >= p
  {
  }

  lemma NoChain()
    ensures Linked([], [])
  {
  }

  lemma AppendNone<T>(r: Option<seq<T>>)
    ensures Append(Some([]), r) == r
  {
    if r.Some? { assert [] + r.value == r.value; }
  }

  lemma AppendCons<T>(a: seq<T>, x: T, r: Option<seq<T>>)
    ensures Append(Some(a), Cons(Some(x), r)) == Append(Some(a + [x]), r)
  {
    if r.Some? { assert a + ([x] + r.value) == a + [x] + r.value; }
  }

  /** The offsets loop of decode_func_section over all clusters. */
  method ComputeOffsets(cs: seq<Cluster>) returns (offsets: seq<nat>, ok: bool)
    ensures ok == ValueTypes(Expand(cs))
    ensures ok ==> offsets == PrefixSums(Expand(cs))
  {
    hide PrefixSums, TypesSize, Expand, ValueTypes;
    ghost var done: seq<byte> := [];
    offsets := [0];
    PrefixNone();
    assert [] + Expand(cs) == Expand(cs) && cs[0..] == cs;
    for k := 0 to |cs|
      invariant Expand(cs) == done + Expand(cs[k..]) && ValueTypes(done) && offsets == PrefixSums(done)
    {
      assert cs[k..] == [cs[k]] + cs[k + 1..];
      ExpandCons(cs[k], cs[k + 1..]);
      var t, run := cs[k].t, Repeat(cs[k].count, cs[k].t);
      assert done + (run + Expand(cs[k + 1..])) == done + run + Expand(cs[k + 1..]);
      if cs[k].count > 0 && !(IsValueType(t) || t == TYPE_VOID) {
        InvalidInside(done, cs[k], Expand(cs[k + 1..]));
        return [], false;
      }
      offsets := AddRun(offsets, cs[k].count, t, done);
      done := done + run;
    }
    NoClusterLeft(cs);
    assert done + [] == done;
    return offsets, true;
  }

  lemma NoClusterLeft(cs: seq<Cluster>)
    ensures Expand(cs[|cs|..]) == []
  {
  }

  /** The inner loop: count locals of type t after those in done. */
  method AddRun(offsets: seq<nat>, count: nat, t: byte, ghost done: seq<byte>) returns (offsets': seq<nat>)
    requires offsets == PrefixSums(done) && ValueTypes(done) && (count > 0 ==> IsValueType(t) || t == TYPE_VOID)
    ensures offsets' == PrefixSums(done + Repeat(count, t)) && ValueTypes(done + Repeat(count, t))
  {
    hide PrefixSums, TypesSize;
    ghost var now := done;
    offsets' := offsets;
    LastPrefix(done);
    var offset := offsets[|offsets| - 1];
    for c := 0 to count
      invariant now == done + Repeat(c, t) && ValueTypes(now) && offsets' == PrefixSums(now) && offset == TypesSize(now)
    {
      PrefixNext(now, t);
      assert Repeat(c + 1, t) == Repeat(c, t) + [t];
      offset := offset + TypeSize(t);
      offsets' := offsets' + [offset];
      now := now + [t];
    }
  }

  lemma LastPrefix(ts: seq<byte>)
    ensures PrefixSums(ts)[|ts|] == TypesSize(ts)
  {
    assert ts[..|ts|] == ts;
  }

  lemma PrefixNone()
    ensures PrefixSums([]) == [0] && TypesSize([]) == 0 && ValueTypes([])
  {
    assert PrefixSums([])[0] == TypesSize([][..0]);
  }

  lemma {:induction false} TypesSizeSnoc(ts: seq<byte>, t: byte)
    ensures TypesSize(ts + [t]) == TypesSize(ts) + TypeSize(t)
    decreases |ts|
  {
    if ts == [] {
      assert ts + [t] == [t] && [t][1..] == [];
    } else {
      assert (ts + [t])[1..] == ts[1..] + [t];
      TypesSizeSnoc(ts[1..], t);
    }
  }

  lemma PrefixNext(ts: seq<byte>, t: byte)
    ensures PrefixSums(ts + [t]) == PrefixSums(ts) + [TypesSize(ts + [t])]
    ensures TypesSize(ts + [t]) == TypesSize(ts) + TypeSize(t)
  {
    TypesSizeSnoc(ts, t);
    assert (ts + [t])[..|ts| + 1] == ts + [t];
    forall i | 0 <= i <= |ts| ensures (ts + [t])[..i] == ts[..i] {}
  }

  lemma InvalidInside(done: seq<byte>, c: Cluster, rest: seq<byte>)
    requires c.count > 0 && !(IsValueType(c.t) || c.t == TYPE_VOID)
    ensures !ValueTypes(done + (Repeat(c.count, c.t) + rest))
  {
    assert (done + (Repeat(c.count, c.t) + rest))[|done|] == c.t;
  }

  /** One function of decode_func_section. */
  method DecodeEntry(types: seq<FuncType>, t: nat, file: seq<byte>, p: nat) returns (r: Option<Entry>)
    ensures r == DecEntry(types, t, file, p)
  {
    hide Expand, ValueTypes, DecList, PrefixSums;
    var size := ReadNumber(file, p);
    if size.PastEnd? || t >= |types| { return None; }
    var cs := ReadList(file, size.next, DecCluster);
    if cs.PastEnd? { return None; }
    var params := types[t].params;
    var clusters := cs.value;
    for i := 0 to |params|
      invariant Expand(clusters) == params[|params| - i..] + Expand(cs.value)
    {
      ghost var k := |params| - i - 1;
      ExpandCons(Cluster(1, params[k]), clusters);
      assert params[k..] == [params[k]] + params[k + 1..];
      clusters := [Cluster(1, params[|params| - i - 1])] + clusters;
    }
    assert params[0..] == params;
    var n := CountLocals(clusters);
    if n > 255 { return None; }
    var offsets, ok := ComputeOffsets(clusters);
    if !ok || size.next + size.value < cs.next { return None; }
    return Some(Entry(FnInfo(false, params, types[t].results, cs.next, size.next + size.value - cs.next, offsets), size.next + size.value));
  }

  lemma ExpandCons(c: Cluster, cs: seq<Cluster>)
    ensures Expand([c] + cs) == Repeat(c.count, c.t) + Expand(cs)
    ensures c.count == 1 ==> Expand([c] + cs) == [c.t] + Expand(cs)
  {
    assert ([c] + cs)[1..] == cs;
    if c.count == 1 { assert Repeat(1, c.t) == [c.t]; }
  }

  method CountLocals(cs: seq<Cluster>) returns (n: nat)
    ensures n == |Expand(cs)|
  {
    n := 0;
    for k := 0 to |cs|
      invariant |Expand(cs)| == n + |Expand(cs[k..])|
    {
      assert cs[k..][1..] == cs[k + 1..];
      n := n + cs[k].count;
    }
  }

  class DeepModule {
    var types: seq<FuncType>
    var imports: seq<Import>
    var fns: seq<FnInfo>
    var table: Option<Limits>
    var memory: Option<Limits>
    var globals: seq<LoadedGlobal>
    var exports: seq<Export>
    var start: Option<nat>
    var elems: seq<Elem>
    var datas: seq<Data>

    ghost function Abs(): Loaded
      reads this
    {
      Loaded(types, imports, fns, table, memory, globals, exports, start, elems, datas)
    }

    /** The cleared module. */
    constructor ()
      ensures Abs() == NOTHING
    {
      types, imports, fns, table, memory, globals, exports, start, elems, datas := [], [], [], None, None, [], [], None, [], [];
    }

    /** decode_func_section on the function section at p and the code section at code. */
    method DecodeFunctions(file: seq<byte>, p: nat, code: nat) returns (ok: bool)
      modifies `fns
      ensures var o := DecFunctions(types, imports, file, p, code);
        ok == o.Some? && fns == (if ok then o.value else old(fns))
    {
      hide DecList, DecEntry, ImportInfo;
      var ts := ReadList(file, p, DecIndex);
      var n := ReadNumber(file, code);
      if ts.PastEnd? || n.PastEnd? || n.value != |ts.value| { return false; }
      var infos: seq<FnInfo> := [];
      AppendNone(ImportInfos(types, imports));
      for i := 0 to |imports|
        invariant fns == old(fns)
        invariant ImportInfos(types, imports) == Append(Some(infos), ImportInfos(types, imports[i..]))
      {
        var info := ImportInfo(types, imports[i].t);
        assert imports[i..][0] == imports[i] && imports[i..][1..] == imports[i + 1..];
        if info.None? { return false; }
        AppendCons(infos, info.value, ImportInfos(types, imports[i + 1..]));
        infos := infos + [info.value];
      }
      assert infos + [] == infos;
      ghost var before := infos;
      var q := n.next;
      assert ts.value[0..] == ts.value;
      for i := 0 to |ts.value|
        invariant fns == old(fns)
        invariant Append(Some(before), DecEntries(types, ts.value, file, n.next))
          == Append(Some(infos), DecEntries(types, ts.value[i..], file, q))
      {
        var e := DecodeEntry(types, ts.value[i], file, q);
        if e.None? { return false; }
        assert ts.value[i..][1..] == ts.value[i + 1..];
        AppendCons(infos, e.value.info, DecEntries(types, ts.value[i + 1..], file, e.value.next));
        infos, q := infos + [e.value.info], e.value.next;
      }
      assert infos + [] == infos;
      fns := infos;
      return true;
    }

    method DecodeLimits(file: seq<byte>, p: nat, skip: nat) returns (ok: bool, l: Option<Limits>)
      ensures var o := DecOne(file, p, skip); ok == o.Some? && (ok ==> l == o.value)
    {
      var n := ReadNumber(file, p);
      if n.PastEnd? { return false, None; }
      if n.value == 0 { return true, None; }
      match DecLimits(file, n.next + skip) {
        case Got(x, _) => return true, Some(x);
        case PastEnd => return false, None;
      }
    }

    /** The switch of decode_each_sections. */
    method DecodeSection(file: seq<byte>, code: nat, s: Section) returns (ok: bool)
      modifies this
      ensures var o := LoadSection(file, code, s, old(Abs())); ok == o.Some? && (ok ==> Abs() == o.value)
    {
      hide DecList, DecFunctions, DecOne, ReadU32;
      ok := true;
      if s.id == 1 {
        var xs := ReadList(file, s.begin, DecType);
        if xs.PastEnd? { return false; }
        types := xs.value;
      } else if s.id == 2 {
        var xs := ReadList(file, s.begin, DecImport);
        if xs.PastEnd? { return false; }
        imports := xs.value;
      } else if s.id == 3 {
        ok := DecodeFunctions(file, s.begin, code);
      } else if s.id == 4 {
        var l;
        ok, l := DecodeLimits(file, s.begin, 1);
        if ok { table := l; }
      } else if s.id == 5 {
        var l;
        ok, l := DecodeLimits(file, s.begin, 0);
        if ok { memory := l; }
      } else if s.id == 6 {
        var xs := ReadList(file, s.begin, DecGlobal);
        if xs.PastEnd? { return false; }
        globals := xs.value;
      } else if s.id == 7 {
        var xs := ReadList(file, s.begin, DecExport);
        if xs.PastEnd? { return false; }
        exports := xs.value;
      } else if s.id == 8 {
        var i := ReadNumber(file, s.begin);
        if i.PastEnd? { return false; }
        start := Some(i.value);
      } else if s.id == 9 {
        var xs := ReadList(file, s.begin, DecElem);
        if xs.PastEnd? { return false; }
        elems := xs.value;
      } else if s.id == 11 {
        var xs := ReadList(file, s.begin, DecData);
        if xs.PastEnd? { return false; }
        datas := xs.value;
      }
    }

    /**
     decode_each_sections along the list. false also stands for the two runs that do not end in C: a lone
     node's successor is itself, and a search without a code section runs off the list.
     */
    method DecodeEachSection(file: seq<byte>, head: SectionNode, ghost nodes: seq<SectionNode>,
        ghost ss: seq<Section>) returns (ok: bool)
      requires Linked(nodes, ss) && nodes != [] && head == nodes[0] && this !in (set n | n in nodes :: n as object)
      modifies this
      ensures var o := if |ss| < 2 || CodeBegin(ss).None? then None else LoadSections(file, CodeBegin(ss).value, ss, old(Abs()));
        ok == o.Some? && (ok ==> Abs() == o.value)
    {
      hide LoadSection;
      if head.next == head { return false; }
      ghost var k := 0;
      var node: SectionNode? := head;
      assert ss[0..] == ss;
      while node.section.id != 10
        invariant node != null && k < |nodes| && node == nodes[k] && CodeBegin(ss) == CodeBegin(ss[k..])
        decreases |nodes| - k
      {
        assert ss[k..][1..] == ss[k + 1..];
        node := node.next;
        k := k + 1;
        if node == null { return false; }
      }
      var code := node.section.begin;
      node, k := head, 0;
      while node != null
        invariant k <= |nodes| && (if k < |nodes| then node == nodes[k] else node == null)
        invariant LoadSections(file, code, ss, old(Abs())) == LoadSections(file, code, ss[k..], Abs())
        decreases |nodes| - k
      {
        ok := DecodeSection(file, code, node.section);
        if !ok { return; }
        assert ss[k..][1..] == ss[k + 1..];
        node := node.next;
        k := k + 1;
      }
      return true;
    }
  }

  /** deep_load. */
  method DeepLoad(file: seq<byte>) returns (ok: bool, m: DeepModule)
    ensures ok == LoadFile(file).Some? && (ok ==> m.Abs() == LoadFile(file).value)
  {
    m := new DeepModule();
    if |file| < 8 || file[..8] != HEADER { return false, m; }
    var head, nodes := CreateSectionList(file, 8, |file|);
    if head == null { return false, m; }
    ok := m.DecodeEachSection(file, head, nodes, Split(file, 8, |file|).value);
  }
}
