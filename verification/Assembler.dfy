/**
 The instruction emitter of deep_wat.c: S-expressions, folded or flat, to bytes. Every None stands for a
 reported error, or for a list without a leading atom, whose missing text the C code would read.
 */
module Assembler {
  import opened Bytes
  import opened Leb
  import opened Isa
  import opened Sexpr
  import opened Numerals

  /** The names an instruction may refer to; None: the entity is anonymous. */
  datatype Names = Names(funcs: seq<Option<string>>, globals: seq<Option<string>>, types: seq<Option<string>>, locals: seq<Option<string>>)

  /** The label stack, the function's own label first, the innermost construct's last. */
  type Labels = seq<Option<string>>

  // ----- the mnemonic table, less the floating-point rows, by length of the name -----

  /** A row of the i32 and i64 instructions of one name; 0 stands for no such instruction. */
  function Row(w: Width, op32: byte, op64: byte): Option<byte>
  {
    var op := if w == W32 then op32 else op64;
    if op == 0 then None else Some(op)
  }

  function Typed2(w: Width, m: string): Option<byte>
  {
    if m == "eq" then Row(w, 0x46, 0x51) else if m == "ne" then Row(w, 0x47, 0x52) else
    if m == "or" then Row(w, 0x72, 0x84) else None
  }

  function Typed3(w: Width, m: string): Option<byte>
  {
    if m == "eqz" then Row(w, 0x45, 0x50) else if m == "clz" then Row(w, 0x67, 0x79) else
    if m == "ctz" then Row(w, 0x68, 0x7A) else if m == "add" then Row(w, 0x6A, 0x7C) else
    if m == "sub" then Row(w, 0x6B, 0x7D) else if m == "mul" then Row(w, 0x6C, 0x7E) else
    if m == "and" then Row(w, 0x71, 0x83) else if m == "xor" then Row(w, 0x73, 0x85) else
    if m == "shl" then Row(w, 0x74, 0x86) else None
  }

  function Typed4(w: Width, m: string): Option<byte>
  {
    if m == "load" then Row(w, 0x28, 0x29) else if m == "lt_s" then Row(w, 0x48, 0x53) else
    if m == "lt_u" then Row(w, 0x49, 0x54) else if m == "gt_s" then Row(w, 0x4A, 0x55) else
    if m == "gt_u" then Row(w, 0x4B, 0x56) else if m == "le_s" then Row(w, 0x4C, 0x57) else
    if m == "le_u" then Row(w, 0x4D, 0x58) else if m == "ge_s" then Row(w, 0x4E, 0x59) else
    if m == "ge_u" then Row(w, 0x4F, 0x5A) else if m == "rotl" then Row(w, 0x77, 0x89) else
    if m == "rotr" then Row(w, 0x78, 0x8A) else None
  }

  function Typed5(w: Width, m: string): Option<byte>
  {
    if m == "store" then Row(w, 0x36, 0x37) else if m == "const" then Row(w, 0x41, 0x42) else
    if m == "div_s" then Row(w, 0x6D, 0x7F) else if m == "div_u" then Row(w, 0x6E, 0x80) else
    if m == "rem_s" then Row(w, 0x6F, 0x81) else if m == "rem_u" then Row(w, 0x70, 0x82) else
    if m == "shr_s" then Row(w, 0x75, 0x87) else if m == "shr_u" then Row(w, 0x76, 0x88) else None
  }

  function Typed6(w: Width, m: string): Option<byte>
  {
    if m == "store8" then Row(w, 0x3A, 0x3C) else if m == "popcnt" then Row(w, 0x69, 0x7B) else None
  }

  function Typed7(w: Width, m: string): Option<byte>
  {
    if m == "load8_s" then Row(w, 0x2C, 0x30) else if m == "load8_u" then Row(w, 0x2D, 0x31) else
    if m == "store16" then Row(w, 0x3B, 0x3D) else if m == "store32" then Row(w, 0x00, 0x3E) else None
  }

  function Typed8(w: Width, m: string): Option<byte>
  {
    if m == "load16_s" then Row(w, 0x2E, 0x32) else if m == "load16_u" then Row(w, 0x2F, 0x33) else
    if m == "load32_s" then Row(w, 0x00, 0x34) else if m == "load32_u" then Row(w, 0x00, 0x35) else
    if m == "wrap_i64" then Row(w, 0xA7, 0x00) else None
  }

  function Typed12(w: Width, m: string): Option<byte>
  {
    if m == "extend_i32_s" then Row(w, 0x00, 0xAC) else if m == "extend_i32_u" then Row(w, 0x00, 0xAD) else None
  }

  /** The rows named i32.m or i64.m. */
  function LookupTyped(w: Width, m: string): Option<byte>
  {
    if |m| == 2 then Typed2(w, m) else if |m| == 3 then Typed3(w, m) else if |m| == 4 then Typed4(w, m)
    else if |m| == 5 then Typed5(w, m) else if |m| == 6 then Typed6(w, m) else if |m| == 7 then Typed7(w, m)
    else if |m| == 8 then Typed8(w, m) else if |m| == 12 then Typed12(w, m) else None
  }

  function LookupShort(m: string): Option<byte>
  {
    if m == "if" then Some(0x04) else if m == "br" then Some(0x0C) else if m == "nop" then Some(0x01) else
    if m == "end" then Some(0x0B) else if m == "loop" then Some(0x03) else if m == "else" then Some(0x05) else
    if m == "call" then Some(0x10) else if m == "drop" then Some(0x1A) else if m == "block" then Some(0x02) else
    if m == "br_if" then Some(0x0D) else if m == "return" then Some(0x0F) else if m == "select" then Some(0x1B) else
    None
  }

  function LookupLong(m: string): Option<byte>
  {
    if m == "br_table" then Some(0x0E) else if m == "local.get" then Some(0x20) else
    if m == "local.set" then Some(0x21) else if m == "local.tee" then Some(0x22) else
    if m == "global.get" then Some(0x23) else if m == "global.set" then Some(0x24) else
    if m == "unreachable" then Some(0x00) else if m == "memory.size" then Some(0x3F) else
    if m == "memory.grow" then Some(0x40) else if m == "call_indirect" then Some(0x11) else None
  }

  /** A name that starts with i32. or i64. */
  predicate OfWidth(m: string, c: char, d: char) { |m| >= 4 && m[0] == 'i' && m[1] == c && m[2] == d && m[3] == '.' }

  function LookupOpcode(m: string): Option<byte>
  {
    if OfWidth(m, '3', '2') then LookupTyped(W32, m[4..])
    else if OfWidth(m, '6', '4') then LookupTyped(W64, m[4..])
    else if |m| <= 6 then LookupShort(m)
    else LookupLong(m)
  }

  predicate HasPrefix(s: string, p: string) { |p| <= |s| && s[..|p|] == p }

  function ValType(t: string): Option<byte>
  {
    if t == "i32" then Some(TYPE_I32) else if t == "i64" then Some(TYPE_I64)
    else if t == "f32" then Some(TYPE_F32) else if t == "f64" then Some(TYPE_F64) else None
  }

  function HeadText(x: Sx): Option<string>
  {
    if x.List? && |x.kids| > 0 && x.kids[0].Atom? then Some(x.kids[0].text) else None
  }

  /** A list form with the given keyword. */
  predicate IsForm(x: Sx, keyword: string) { HeadText(x) == Some(keyword) }

  predicate IsName(x: Sx) { x.Atom? && x.text != [] && x.text[0] == '$' }

  // ----- names and labels -----

  /** The first entity of that name. */
  function FindName(names: seq<Option<string>>, name: string): Option<nat>
  {
    if names == [] then None
    else if names[0] == Some(name) then Some(0)
    else match FindName(names[1..], name) case Some(i) => Some(i + 1) case None => None
  }

  /** Every name is given once, as section 6.6 of the WebAssembly Core Specification 1.0 demands of an index space. */
  predicate Unique(names: seq<Option<string>>)
  {
    forall i, j :: 0 <= i < j < |names| && names[i].Some? ==> names[i] != names[j]
  }

  /** The assembler takes the first entity of a name. That is the one entity so named for every name exactly if the
      names are unique. */
  lemma FirstIsOnlyIff(names: seq<Option<string>>)
    ensures (forall x, i: nat :: FindName(names, x) == Some(i) <==> i < |names| && names[i] == Some(x)) <==> Unique(names)
  {
    hide FindName;
    if Unique(names) {
      forall x, i: nat ensures FindName(names, x) == Some(i) <==> i < |names| && names[i] == Some(x) {
        FindNameIs(names, x);
      }
    } else {
      var i, j :| 0 <= i < j < |names| && names[i].Some? && names[i] == names[j];
      var x := names[i].value;
      if FindName(names, x) == Some(i) { assert FindName(names, x) != Some(j) && names[j] == Some(x); }
    }
  }

  lemma {:induction false} FindNameIs(names: seq<Option<string>>, name: string)
    ensures match FindName(names, name)
      case Some(i) => i < |names| && names[i] == Some(name)
      case None => forall i :: 0 <= i < |names| ==> names[i] != Some(name)
    decreases |names|
  {
    if names != [] {
      FindNameIs(names[1..], name);
      if FindName(names, name).None? {
        forall i | 0 <= i < |names| ensures names[i] != Some(name) { assert i > 0 ==> names[i] == names[1..][i - 1]; }
      }
    }
  }

  function ResolveName(names: seq<Option<string>>, ref: string): Option<nat>
  {
    if ref == [] then None
    else if ref[0] == '$' then FindName(names, ref[1..])
    else match IndexText(ref)
         case Some(v) => if Signed32(Wrap32(v)) >= 0 then Some(Signed32(Wrap32(v))) else None
         case None => None
  }

  /** How many constructs lie between the code and the innermost label of that name. */
  function FindLabel(labels: Labels, name: string): Option<nat>
    decreases |labels|
  {
    if labels == [] then None
    else if labels[|labels| - 1] == Some(name) then Some(0)
    else match FindLabel(labels[..|labels| - 1], name) case Some(d) => Some(d + 1) case None => None
  }

  function ResolveLabel(labels: Labels, ref: string): Option<nat>
  {
    if ref != [] && ref[0] == '$' then FindLabel(labels, ref[1..])
    else match IndexText(ref) case Some(v) => Some(Wrap32(v)) case None => None
  }

  // ----- immediates -----

  function EmitConst(m: string, text: string): Option<seq<byte>>
  {
    match IntLit(text)
    case None => None
    case Some(v) =>
      if m == "i32.const" then Some([0x41] + LebS(Signed32(Wrap32(v))))
      else if m == "i64.const" then Some([0x42] + LebS(v))
      else None
  }

  datatype MemArg = MemArg(offset: u32, next: nat)

  /** The offset= and align= atoms from e[i] on; the last valid offset wins. */
  function ReadMemArg(e: seq<Sx>, n: nat, i: nat, offset: u32): (r: MemArg)
    requires n <= |e|
    ensures i <= r.next && (i <= n ==> r.next <= n)
    decreases n - i
  {
    if i < n && e[i].Atom? && HasPrefix(e[i].text, "offset=") then
      ReadMemArg(e, n, i + 1, match IntLit(e[i].text[7..]) case Some(v) => Wrap32(v) case None => offset)
    else if i < n && e[i].Atom? && HasPrefix(e[i].text, "align=") then ReadMemArg(e, n, i + 1, offset)
    else MemArg(offset, i)
  }

  /** An index immediate after an opcode. */
  function Indexed(op: byte, i: Option<nat>): Option<seq<byte>>
  {
    match i case Some(v) => Some([op] + LebU(v)) case None => None
  }

  predicate IsLocal(m: string) { m == "local.get" || m == "local.set" || m == "local.tee" }

  predicate IsGlobal(m: string) { m == "global.get" || m == "global.set" }

  predicate IsBranch(m: string) { m == "br" || m == "br_if" }

  predicate IsConst(m: string) { m == "i32.const" || m == "i64.const" || m == "f32.const" || m == "f64.const" }

  predicate IsBlock(m: string) { m == "block" || m == "loop" }

  function BlockOpcode(m: string): byte { if m == "block" then OP_BLOCK else OP_LOOP }

  function OpcodeOr(m: string): byte { match LookupOpcode(m) case Some(b) => b case None => 0 }

  /** The bytes of an instruction whose immediate is one name or number. */
  function EmitIndexed(a: Names, labels: Labels, m: string, ref: string): Option<seq<byte>>
  {
    if IsBranch(m) then Indexed(OpcodeOr(m), ResolveLabel(labels, ref))
    else if m == "call" then Indexed(OP_CALL, ResolveName(a.funcs, ref))
    else if IsLocal(m) then Indexed(OpcodeOr(m), ResolveName(a.locals, ref))
    else Indexed(OpcodeOr(m), ResolveName(a.globals, ref))
  }

  // ----- folded instructions -----

  /** What a folded plain instruction emits: its operands k[lo..hi], then the bytes of tail. */
  datatype Plan = Plan(lo: nat, hi: nat, tail: seq<byte>)

  function MakePlan(k: seq<Sx>, lo: nat, hi: nat, tail: Option<seq<byte>>): (r: Option<Plan>)
    ensures r.Some? ==> r.value.hi <= |k| && r.value.lo <= r.value.hi
  {
    if tail.Some? && lo <= hi <= |k| then Some(Plan(lo, hi, tail.value)) else None
  }

  function PlanIndexed(a: Names, labels: Labels, m: string, k: seq<Sx>): (r: Option<Plan>)
    ensures r.Some? ==> r.value.hi <= |k| && r.value.lo <= r.value.hi
  {
    if |k| < 2 || !k[1].Atom? then None
    else
      var operands := if m == "call" then |k| - 2
                      else if m == "local.get" || m == "global.get" || m == "br" then 0 else 1;
      MakePlan(k, 2, 2 + operands, EmitIndexed(a, labels, m, k[1].text))
  }

  function PlanIndirect(a: Names, k: seq<Sx>): (r: Option<Plan>)
    ensures r.Some? ==> r.value.hi <= |k| && r.value.lo <= r.value.hi
  {
    if |k| > 1 && IsForm(k[1], "type") then
      if |k[1].kids| < 2 || !k[1].kids[1].Atom? || |k| < 3 then None
      else MakePlan(k, 2, |k|, IndirectBytes(ResolveName(a.types, k[1].kids[1].text)))
    else if |k| < 2 then None
    else MakePlan(k, 1, |k|, IndirectBytes(Some(0)))
  }

  function IndirectBytes(t: Option<nat>): Option<seq<byte>>
  {
    match t case Some(v) => Some([OP_CALL_INDIRECT] + LebU(v) + [0x00]) case None => None
  }

  function PlanAccess(op: byte, k: seq<Sx>): (r: Option<Plan>)
    requires |k| >= 1
    ensures r.Some? ==> r.value.hi <= |k| && r.value.lo <= r.value.hi
  {
    var arg := ReadMemArg(k, |k|, 1, 0);
    MakePlan(k, arg.next, arg.next + (if op >= 0x36 then 2 else 1), Some([op] + LebU(0) + LebU(arg.offset)))
  }

  /** The plain cases of emit_folded, k[0] being the mnemonic m. */
  function PlanOf(a: Names, labels: Labels, m: string, k: seq<Sx>): (r: Option<Plan>)
    requires |k| >= 1
    ensures r.Some? ==> r.value.hi <= |k| && r.value.lo <= r.value.hi
  {
    if IsConst(m) then
      if |k| < 2 || !k[1].Atom? then None else MakePlan(k, 2, 2, EmitConst(m, k[1].text))
    else if IsLocal(m) || IsGlobal(m) || IsBranch(m) || m == "call" then PlanIndexed(a, labels, m, k)
    else if m == "call_indirect" then PlanIndirect(a, k)
    else if m == "memory.size" then MakePlan(k, 1, 1, Some([0x3F, 0x00]))
    else if m == "memory.grow" then MakePlan(k, 1, 2, Some([0x40, 0x00]))
    else if m == "br_table" then None
    else if m == "select" then MakePlan(k, 1, if |k| < 4 then |k| else 4, Some([0x1B]))
    else if m == "drop" then MakePlan(k, 1, 2, Some([0x1A]))
    else
      match LookupOpcode(m)
      case None => None
      case Some(op) => if 0x28 <= op <= 0x3E then PlanAccess(op, k) else MakePlan(k, 1, |k|, Some([op]))
  }

  /** The label, block type and body position of a construct's list. */
  datatype Header = Header(name: Option<string>, bt: byte, next: nat)

  function ReadHeader(k: seq<Sx>): (r: Option<Header>)
    requires |k| >= 1
    ensures r.Some? ==> 1 <= r.value.next <= |k|
  {
    var named := |k| > 1 && IsName(k[1]);
    var name := if named then Some(k[1].text[1..]) else None;
    var i := if named then 2 else 1;
    if i < |k| && IsForm(k[i], "result") then
      if |k[i].kids| >= 2 && k[i].kids[1].Atom? then
        match ValType(k[i].kids[1].text) case Some(t) => Some(Header(name, t, i + 1)) case None => None
      else Some(Header(name, TYPE_VOID, i + 1))
    else Some(Header(name, TYPE_VOID, i))
  }

  datatype Status = ROk | REnd | RElse | RErr

  datatype SeqRes = SeqRes(code: seq<byte>, status: Status, next: nat)

  function Join(a: Option<seq<byte>>, b: Option<seq<byte>>): Option<seq<byte>>
  {
    if a.Some? && b.Some? then Some(a.value + b.value) else None
  }

  /** The bytes of a body that must run to the end of its list. */
  function WholeBody(r: SeqRes): Option<seq<byte>> { if r.status == ROk then Some(r.code) else None }

  function EmitFolded(a: Names, labels: Labels, x: Sx): Option<seq<byte>>
    decreases x, 1
  {
    match HeadText(x)
    case None => None
    case Some(m) =>
      if IsBlock(m) then EmitBlock(a, labels, m, x.kids)
      else if m == "if" then EmitIf(a, labels, x.kids)
      else
        match PlanOf(a, labels, m, x.kids)
        case None => None
        case Some(plan) => Join(EmitArgs(a, labels, x.kids, plan.lo, plan.hi), Some(plan.tail))
  }

  function EmitArgs(a: Names, labels: Labels, k: seq<Sx>, lo: nat, hi: nat): Option<seq<byte>>
    requires hi <= |k|
    decreases k, 0, hi - lo
  {
    if lo >= hi then Some([]) else Join(EmitExpr(a, labels, k[lo]), EmitArgs(a, labels, k, lo + 1, hi))
  }

  function EmitExpr(a: Names, labels: Labels, x: Sx): Option<seq<byte>>
    decreases x, 2
  {
    if x.Atom? then match LookupOpcode(x.text) case Some(op) => Some([op]) case None => None
    else EmitFolded(a, labels, x)
  }

  function EmitBlock(a: Names, labels: Labels, m: string, k: seq<Sx>): Option<seq<byte>>
    requires |k| >= 1
    decreases k, 1
  {
    match ReadHeader(k)
    case None => None
    case Some(h) =>
      var body := WholeBody(EmitSeq(a, labels + [h.name], k, |k|, h.next));
      Join(Some([BlockOpcode(m), h.bt]), Join(body, Some([OP_END])))
  }

  /** The position of the first (else ...) from i on. */
  function FindElse(k: seq<Sx>, i: nat): (r: nat)
    requires i <= |k|
    ensures i <= r <= |k|
    decreases |k| - i
  {
    if i == |k| || IsForm(k[i], "else") then i else FindElse(k, i + 1)
  }

  /** The label is on the stack already while the condition is emitted. */
  function EmitIf(a: Names, labels: Labels, k: seq<Sx>): Option<seq<byte>>
    requires |k| >= 1
    decreases k, 2
  {
    match ReadHeader(k)
    case None => None
    case Some(h) =>
      if h.next >= |k| then None
      else
        var inner := labels + [h.name];
        Join(EmitExpr(a, inner, k[h.next]), Join(Some([OP_IF, h.bt]), EmitArms(a, inner, k, h.next + 1)))
  }

  /** The arms of an if, from k[i] on, and its end: (then ...) or bare instructions, then perhaps (else ...). */
  function EmitArms(a: Names, inner: Labels, k: seq<Sx>, i: nat): Option<seq<byte>>
    requires i <= |k|
    decreases k, 1
  {
    var short := i < |k| && IsForm(k[i], "then");
    var j := if short then i + 1 else FindElse(k, i);
    var thn := if short then EmitSeq(a, inner, k[i].kids, |k[i].kids|, 1) else EmitSeq(a, inner, k, j, i);
    Join(WholeBody(thn), Join(EmitElse(a, inner, k, j), Some([OP_END])))
  }

  function EmitElse(a: Names, inner: Labels, k: seq<Sx>, j: nat): Option<seq<byte>>
    requires j <= |k|
    decreases k, 0
  {
    if j < |k| && IsForm(k[j], "else") then Join(Some([OP_ELSE]), WholeBody(EmitSeq(a, inner, k[j].kids, |k[j].kids|, 1)))
    else Some([])
  }

  // ----- instruction sequences -----

  datatype FlatLeaf = FlatLeaf(code: seq<byte>, next: nat)

  function LeafAt(code: Option<seq<byte>>, next: nat): Option<FlatLeaf>
  {
    match code case Some(c) => Some(FlatLeaf(c, next)) case None => None
  }

  /** A flat instruction that is not a construct: the atom e[i] and the immediates after it. */
  function EmitFlatLeaf(a: Names, labels: Labels, e: seq<Sx>, n: nat, i: nat): (r: Option<FlatLeaf>)
    requires i < n <= |e| && e[i].Atom?
    ensures r.Some? ==> i < r.value.next <= n
  {
    var m := e[i].text;
    if IsConst(m) then
      if i + 1 < n && e[i + 1].Atom? then LeafAt(EmitConst(m, e[i + 1].text), i + 2) else None
    else if IsLocal(m) || IsGlobal(m) || IsBranch(m) || m == "call" then
      if i + 1 < n && e[i + 1].Atom? then LeafAt(EmitIndexed(a, labels, m, e[i + 1].text), i + 2) else None
    else if m == "memory.size" || m == "memory.grow" then Some(FlatLeaf([OpcodeOr(m), 0x00], i + 1))
    else if m == "call_indirect" then
      if i + 1 < n && IsForm(e[i + 1], "type") then
        var t := e[i + 1].kids;
        LeafAt(IndirectBytes(if |t| >= 2 && t[1].Atom? then ResolveName(a.types, t[1].text) else Some(0)), i + 2)
      else LeafAt(IndirectBytes(Some(0)), i + 1)
    else if m == "br_table" then None
    else
      match LookupOpcode(m)
      case None => None
      case Some(op) =>
        if 0x28 <= op <= 0x3E then
          var arg := ReadMemArg(e, n, i + 1, 0);
          Some(FlatLeaf([op] + LebU(0) + LebU(arg.offset), arg.next))
        else Some(FlatLeaf([op], i + 1))
  }

  function Err(i: nat): SeqRes { SeqRes([], RErr, i) }

  /** code, then the rest of the sequence. */
  function Then(code: seq<byte>, r: SeqRes): SeqRes { if r.status == RErr then r else r.(code := code + r.code) }

  predicate Closed(r: SeqRes) { r.status == ROk || r.status == REnd }

  /** emit_seq on the elements e[i..n]: one element after the other, until end, else or the last one. */
  function EmitSeq(a: Names, labels: Labels, e: seq<Sx>, n: nat, i: nat): (r: SeqRes)
    requires n <= |e|
    ensures i <= r.next && (i <= n ==> r.next <= n)
    decreases e, 0, n - i, 2
  {
    if i >= n then SeqRes([], ROk, i)
    else if e[i] == Atom("end") then SeqRes([], REnd, i + 1)
    else if e[i] == Atom("else") then SeqRes([], RElse, i + 1)
    else
      match EmitOne(a, labels, e, n, i)
      case None => Err(i)
      case Some(one) => Then(one.code, EmitSeq(a, labels, e, n, one.next))
  }

  /** A folded instruction, a flat construct or a flat instruction. */
  function EmitOne(a: Names, labels: Labels, e: seq<Sx>, n: nat, i: nat): (r: Option<FlatLeaf>)
    requires i < n <= |e|
    ensures r.Some? ==> i < r.value.next <= n
    decreases e, 0, n - i, 1
  {
    if e[i].List? then LeafAt(EmitFolded(a, labels, e[i]), i + 1)
    else if IsBlock(e[i].text) || e[i].text == "if" then
      var named := i + 1 < n && IsName(e[i + 1]);
      var name := if named then Some(e[i + 1].text[1..]) else None;
      EmitFlatConstruct(a, labels + [name], e, n, if named then i + 2 else i + 1, e[i].text)
    else EmitFlatLeaf(a, labels, e, n, i)
  }

  /** A flat block, loop or if from its body on, its label already on the stack. */
  function EmitFlatConstruct(a: Names, inner: Labels, e: seq<Sx>, n: nat, i: nat, m: string): (r: Option<FlatLeaf>)
    requires i <= n <= |e|
    ensures r.Some? ==> i <= r.value.next <= n
    decreases e, 0, n - i, 3
  {
    var r := EmitSeq(a, inner, e, n, i);
    if m == "if" && r.status == RElse then
      var r2 := EmitSeq(a, inner, e, n, r.next);
      if Closed(r2) then Some(FlatLeaf([OP_IF, TYPE_VOID] + r.code + [OP_ELSE] + r2.code + [OP_END], r2.next)) else None
    else if Closed(r) then
      Some(FlatLeaf([if m == "if" then OP_IF else BlockOpcode(m), TYPE_VOID] + r.code + [OP_END], r.next))
    else None
  }
}
