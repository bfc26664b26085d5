/** main of deep_main.c: from a file's bytes to what the program returns. */
module Program {
  import opened Bytes
  import opened Leb
  import opened Isa
  import opened Machine
  import opened Sections
  import opened Loader
  import R = Reader
  import I = Interpreter

  const PAGE_SIZE: nat := 0x1_0000

  /** All the memory there is to allocate from, MEM_SIZE: two pages. */
  const POOL_SIZE: nat := 2 * PAGE_SIZE

  /** WASM_FILE_SIZE, the most that is read of a file. */
  const FILE_SIZE: nat := 1024

  const MAIN: seq<byte> := [0x6D, 0x61, 0x69, 0x6E]

  /** The memory section's minimum; one page if there is none or it is 0. */
  function Pages(l: Loaded): u32
  {
    if l.memory.Some? && l.memory.value.min > 0 then l.memory.value.min else 1
  }

  /** What init_memory gets for that many pages: cleared bytes, or NULL, which is nothing to read or write, for what the
      pool cannot hold. */
  function MemoryOf(l: Loaded): seq<byte>
  {
    if Pages(l) * PAGE_SIZE < POOL_SIZE then Zeros(Pages(l) * PAGE_SIZE) else []
  }

  // ----- the function table -----

  /** One segment written into the table; what does not fit is dropped. */
  function ApplyElem(table: seq<nat>, offset: u32, fns: seq<nat>): (r: seq<nat>)
    ensures |r| == |table|
    decreases |fns|
  {
    if fns == [] then table
    else
      var n := |fns| - 1;
      var t := ApplyElem(table, offset, fns[..n]);
      if Wrap32(offset + n) < |table| then t[Wrap32(offset + n) := fns[n]] else t
  }

  function ApplyElems(table: seq<nat>, elems: seq<Elem>): (r: seq<nat>)
    ensures |r| == |table|
    decreases |elems|
  {
    if elems == [] then table
    else ApplyElem(ApplyElems(table, elems[..|elems| - 1]), elems[|elems| - 1].offset, elems[|elems| - 1].fns)
  }

  function TableOf(l: Loaded): seq<nat>
  {
    if l.table.None? then [] else ApplyElems(seq(l.table.value.min, i => NO_FUNC), l.elems)
  }

  /** A segment that fits is found in the table element by element, and nothing else has changed. */
  lemma {:induction false} ElemInTable(table: seq<nat>, offset: u32, fns: seq<nat>, k: nat)
    requires offset + |fns| <= |table| < 0x1_0000_0000 && k < |table|
    ensures ApplyElem(table, offset, fns)[k] == if offset <= k < offset + |fns| then fns[k - offset] else table[k]
    decreases |fns|
  {
    if fns != [] {
      var n := |fns| - 1;
      ElemInTable(table, offset, fns[..n], k);
      assert Wrap32(offset + n) == offset + n;
    }
  }

  method FillTable(l: Loaded) returns (table: seq<nat>)
    ensures table == TableOf(l)
  {
    if l.table.None? { return []; }
    table := seq(l.table.value.min, i => NO_FUNC);
    ghost var empty := table;
    assert l.elems[..|l.elems|] == l.elems && l.elems[..0] == [];
    for i := 0 to |l.elems|
      invariant table == ApplyElems(empty, l.elems[..i])
    {
      var e := l.elems[i];
      ghost var before := table;
      assert e.fns[..0] == [] && e.fns[..|e.fns|] == e.fns;
      for j := 0 to |e.fns|
        invariant table == ApplyElem(before, e.offset, e.fns[..j])
      {
        assert e.fns[..j + 1][..j] == e.fns[..j];
        var idx := Wrap32(e.offset + j);
        if idx < |table| { table := table[idx := e.fns[j]]; }
      }
      assert l.elems[..i + 1][..i] == l.elems[..i];
    }
  }

  // ----- running a file -----

  function GlobalTypes(gs: seq<LoadedGlobal>): (r: seq<byte>)
    ensures |r| == |gs|
  {
    seq(|gs|, i requires 0 <= i < |gs| => gs[i].t)
  }

  function GlobalBits(gs: seq<LoadedGlobal>): (r: seq<u64>)
    ensures |r| == |gs|
  {
    seq(|gs|, i requires 0 <= i < |gs| => gs[i].bits)
  }

  function MachineOf(file: seq<byte>, l: Loaded): Module
  {
    Module(file, l.fns, GlobalTypes(l.globals), TableOf(l), Pages(l))
  }

  /** The last export named main, whatever its kind. */
  function FindMain(exports: seq<Export>): Option<nat>
    decreases |exports|
  {
    if exports == [] then None
    else if exports[|exports| - 1].name == MAIN then Some(exports[|exports| - 1].index)
    else FindMain(exports[..|exports| - 1])
  }

  /** Export k is the one that counts: it is named "main" and no later one is. */
  predicate IsMain(exports: seq<Export>, k: nat)
  {
    k < |exports| && exports[k].name == [0x6D, 0x61, 0x69, 0x6E]
    && forall j :: k < j < |exports| ==> exports[j].name != [0x6D, 0x61, 0x69, 0x6E]
  }

  /** What is run is the function of the last export named main; there is none exactly if no export has that name. */
  lemma {:induction false} FindMainIff(exports: seq<Export>, i: nat)
    ensures FindMain(exports) == Some(i) <==> exists k: nat :: IsMain(exports, k) && exports[k].index == i
    ensures FindMain(exports) == None <==> forall k :: 0 <= k < |exports| ==> exports[k].name != [0x6D, 0x61, 0x69, 0x6E]
    decreases |exports|
  {
    if exports != [] {
      var n := |exports| - 1;
      var p := exports[..n];
      FindMainIff(p, i);
      forall k: nat ensures IsMain(exports, k) <==>
        if exports[n].name == [0x6D, 0x61, 0x69, 0x6E] then k == n else IsMain(p, k)
      {
        assert k < n ==> exports[k] == p[k];
        assert IsMain(p, k) ==> forall j :: k < j < n ==> exports[j] == p[j];
        assert exports[n].name != [0x6D, 0x61, 0x69, 0x6E] && IsMain(exports, k) ==> k < n && forall j :: k < j < n ==> p[j] == exports[j];
      }
      forall k | 0 <= k < n ensures exports[k] == p[k] {}
      if k: nat :| IsMain(p, k) && exports[k].index == i { assert exports[k] == p[k]; }
    }
  }

  predicate Runnable(l: Loaded)
  {
    var main := FindMain(l.exports);
    main.Some? && main.value < |l.fns| && !l.fns[main.value].isImport && |l.fns[main.value].offsets| > 0
  }

  /** The state in which main's frame starts. */
  function InitialState(l: Loaded, main: FnInfo): State
    requires |main.offsets| > 0
  {
    State([], Zeros(main.offsets[|main.offsets| - 1]), GlobalBits(l.globals), MemoryOf(l), 0)
  }

  function RunLoaded(file: seq<byte>, l: Loaded, fuel: nat): Final
  {
    if !Runnable(l) then Crashed
    else
      var main := FindMain(l.exports).value;
      FinalOf(l.fns[main].results, MainRun(MachineOf(file, l), fuel, l.start, main, InitialState(l, l.fns[main])))
  }

  function RunFile(file: seq<byte>, fuel: nat): Final
  {
    match LoadFile(file) case Some(l) => RunLoaded(file, l, fuel) case None => Crashed
  }

  /** What fread gets of a file. */
  function ReadIn(file: seq<byte>): seq<byte> { if |file| > FILE_SIZE then file[..FILE_SIZE] else file }

  /** main of deep_main.c, given a file's contents. */
  function RunDeep(file: seq<byte>, fuel: nat): Final { RunFile(ReadIn(file), fuel) }

  method MainIndex(exports: seq<Export>) returns (main: Option<nat>)
    ensures main == FindMain(exports)
  {
    main := None;
    assert exports[..|exports|] == exports;
    for i := 0 to |exports|
      invariant main == FindMain(exports[..i])
    {
      assert exports[..i + 1][..i] == exports[..i];
      if exports[i].name == MAIN { main := Some(exports[i].index); }
    }
  }

  method MakeFunctions(fns: seq<FnInfo>) returns (r: seq<I.Function>)
    ensures |r| == |fns| && forall i :: 0 <= i < |fns| ==> r[i].info == fns[i]
  {
    r := [];
    for i := 0 to |fns|
      invariant |r| == i && forall j :: 0 <= j < i ==> r[j].info == fns[j]
    {
      var f := new I.Function(fns[i]);
      r := r + [f];
    }
  }

  /** main of deep_main.c, from the contents of its file. */
  method DeepMain(contents: seq<byte>, fuel: nat) returns (r: Final)
    ensures r == RunDeep(contents, fuel)
  {
    hide LoadFile, MainRun, TableOf, FinalOf, Zeros;
    var file := ReadIn(contents);
    if |file| == 0 { NothingRead(fuel); return Crashed; }
    var ok, m := R.DeepLoad(file);
    if !ok { return Crashed; }
    ghost var l := m.Abs();
    var main := MainIndex(m.exports);
    if main.None? || main.value >= |m.fns| || m.fns[main.value].isImport || |m.fns[main.value].offsets| == 0 { return Crashed; }
    var loaded := Loaded(m.types, m.imports, m.fns, m.table, m.memory, m.globals, m.exports, m.start, m.elems, m.datas);
    var pages, bits := Pages(loaded), GlobalBits(loaded.globals);
    var memory := new byte[if pages * PAGE_SIZE < POOL_SIZE then pages * PAGE_SIZE else 0](_ => 0);
    var globals := new u64[|bits|](i requires 0 <= i < |bits| => bits[i]);
    var table := FillTable(loaded);
    var functions := MakeFunctions(m.fns);
    var mod := Module(file, m.fns, GlobalTypes(m.globals), table, pages);
    ZerosAre(memory[..]);
    assert globals[..] == bits;
    var env := new I.Env(mod, functions, memory, globals, main.value);
    r := env.CallMain(fuel, m.start, main.value);
  }

  lemma NothingRead(fuel: nat)
    ensures RunFile([], fuel) == Crashed
  {
    hide RunLoaded, Split, LoadSections;
  }

  lemma ZerosAre(s: seq<byte>)
    requires forall i :: 0 <= i < |s| ==> s[i] == 0
    ensures s == Zeros(|s|)
  {
  }
}
