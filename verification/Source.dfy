/** Programs as their authors write them: folded instructions, named labels, names for everything. */
module Source {
  import opened Bytes
  import opened Isa
  import opened Sexpr
  import opened Numerals
  import A = Assembler

  datatype Ref = Name(s: string) | Num(n: nat)

  datatype IndexKind = LocalGet | LocalSet | LocalTee | GlobalGet | GlobalSet | Call | Br | BrIf

  /** How a load or store writes its memory argument; both parts are optional, and alignment is a hint. */
  datatype MemText = MemText(offset: Option<nat>, align: Option<nat>)

  /** An instruction's mnemonic with its immediates. A constant is given by its literal, which Numerals.IntLitIs explains. */
  datatype Op =
    | Numeric(p: Plain)
    | Return
    | Const(w: Width, text: string)
    | Index(k: IndexKind, r: Ref)
    | Indirect(t: Ref)
    | MemSize
    | MemGrow
    | Select
    | Drop
    | Load(w: Width, bytes: nat, signed: bool, mem: MemText)
    | Store(w: Width, bytes: nat, mem: MemText)

  /** Node: an instruction folded over its operands. */
  datatype Ast =
    | Node(op: Op, args: seq<Ast>)
    | Block(loop: bool, name: Option<string>, bt: byte, body: seq<Ast>)
    | If(name: Option<string>, bt: byte, cond: Ast, thn: seq<Ast>, els: seq<Ast>)

  // ----- mnemonics -----

  function WidthName(w: Width): string { if w == W32 then "i32." else "i64." }

  function UnName(op: UnOp): string
  {
    match op case Eqz => "eqz" case Clz => "clz" case Ctz => "ctz" case Popcnt => "popcnt"
  }

  function RelName(op: RelOp): string
  {
    match op
    case Eq => "eq" case Ne => "ne" case LtS => "lt_s" case LtU => "lt_u" case GtS => "gt_s"
    case GtU => "gt_u" case LeS => "le_s" case LeU => "le_u" case GeS => "ge_s" case GeU => "ge_u"
  }

  function BinName(op: BinOp): string
  {
    match op
    case Add => "add" case Sub => "sub" case Mul => "mul" case DivS => "div_s" case DivU => "div_u"
    case RemS => "rem_s" case RemU => "rem_u" case And => "and" case Or => "or" case Xor => "xor"
    case Shl => "shl" case ShrS => "shr_s" case ShrU => "shr_u" case Rotl => "rotl" case Rotr => "rotr"
  }

  function CvtName(op: CvtOp): string
  {
    match op case WrapI64 => "wrap_i64" case ExtendS => "extend_i32_s" case ExtendU => "extend_i32_u"
  }

  function LoadName(w: Width, bytes: nat, signed: bool): string
  {
    if bytes == Size(w) then "load"
    else if bytes == 1 then (if signed then "load8_s" else "load8_u")
    else if bytes == 2 then (if signed then "load16_s" else "load16_u")
    else if signed then "load32_s" else "load32_u"
  }

  function StoreName(w: Width, bytes: nat): string
  {
    if bytes == Size(w) then "store" else if bytes == 1 then "store8" else if bytes == 2 then "store16" else "store32"
  }

  function IndexName(k: IndexKind): string
  {
    match k
    case LocalGet => "local.get" case LocalSet => "local.set" case LocalTee => "local.tee"
    case GlobalGet => "global.get" case GlobalSet => "global.set"
    case Call => "call" case Br => "br" case BrIf => "br_if"
  }

  predicate IsNumeric(p: Plain) { p.Un? || p.Rel? || p.Bin? || p.Cvt? || p.Nop? || p.Unreachable? }

  function NumericName(p: Plain): string
    requires IsNumeric(p)
  {
    match p
    case Un(w, op) => WidthName(w) + UnName(op)
    case Rel(w, op) => WidthName(w) + RelName(op)
    case Bin(w, op) => WidthName(w) + BinName(op)
    case Cvt(op) => WidthName(if op == WrapI64 then W32 else W64) + CvtName(op)
    case Nop => "nop"
    case Unreachable => "unreachable"
  }

  // ----- well-formed programs -----

  /**
   How many of n folded operands the assembler emits, always the first ones; None: it refuses the instruction.
   Written folded, br's operands and all but the first of br_if's are dropped.
   */
  function Takes(op: Op, n: nat): Option<nat>
  {
    match op
    case Numeric(_) | Return => Some(n)
    case Const(_, _) | MemSize => Some(0)
    case Indirect(_) => AtLeast(n, 1, n)
    case MemGrow | Drop | Load(_, _, _, _) => AtLeast(n, 1, 1)
    case Select => Some(if n < 3 then n else 3)
    case Store(_, _, _) => AtLeast(n, 2, 2)
    case Index(k, _) =>
      if k.Call? then Some(n) else if k.LocalGet? || k.GlobalGet? || k.Br? then Some(0) else AtLeast(n, 1, 1)
  }

  function AtLeast(n: nat, least: nat, taken: nat): Option<nat> { if n < least then None else Some(taken) }

  /** Does the assembler emit every operand of the instruction? */
  predicate TakesAll(op: Op, args: seq<Ast>) { Takes(op, |args|) == Some(|args|) }

  /** The operands it emits. */
  function Taken(op: Op, args: seq<Ast>): seq<Ast>
  {
    match Takes(op, |args|)
    case Some(t) => if t < |args| then args[..t] else args
    case None => args
  }

  /** A memory argument without an offset means offset 0. */
  function OffsetOf(m: MemText): nat { match m.offset case Some(o) => o case None => 0 }

  /** The literal is an integer of the width, signed or unsigned. */
  predicate LitOk(w: Width, text: string)
  {
    IntLit(text).Some? && (w == W32 ==> -0x8000_0000 <= IntLit(text).value < 0x1_0000_0000)
  }

  /** Its value, read as signed. */
  function LitValue(w: Width, text: string): int
  {
    match IntLit(text) case Some(v) => if w == W32 then Signed32(Wrap32(v)) else v case None => 0
  }

  predicate RefOk(r: Ref) { r.Num? ==> r.n < 0x7FFF_FFFF }

  predicate AlignOk(m: MemText) { m.align.Some? ==> m.align.value < 0x1_0000_0000 }

  predicate OpOk(op: Op)
  {
    match op
    case Numeric(p) => IsNumeric(p)
    case Const(w, text) => LitOk(w, text)
    case Index(_, r) => RefOk(r)
    case Indirect(t) => RefOk(t)
    case Load(w, n, s, m) => Encodable(Plain.Load(w, n, s, OffsetOf(m))) && AlignOk(m)
    case Store(w, n, m) => Encodable(Plain.Store(w, n, OffsetOf(m))) && AlignOk(m)
    case _ => true
  }

  predicate BlockTypeOk(bt: byte)
  {
    bt == TYPE_VOID || bt == TYPE_I32 || bt == TYPE_I64 || bt == TYPE_F32 || bt == TYPE_F64
  }

  predicate AstOk(x: Ast)
    decreases x
  {
    match x
    case Node(op, args) => OpOk(op) && SeqOk(args)
    case Block(_, _, bt, body) => BlockTypeOk(bt) && SeqOk(body)
    case If(_, bt, cond, thn, els) => BlockTypeOk(bt) && AstOk(cond) && SeqOk(thn) && SeqOk(els)
  }

  predicate SeqOk(xs: seq<Ast>)
    decreases xs
  {
    xs == [] || (AstOk(xs[0]) && SeqOk(xs[1..]))
  }

  // ----- text -----

  function RefText(r: Ref): string { if r.Name? then "$" + r.s else Dec(r.n) }

  function Mnemonic(op: Op): string
    requires OpOk(op)
  {
    match op
    case Numeric(p) => NumericName(p)
    case Return => "return"
    case Const(w, _) => WidthName(w) + "const"
    case Index(k, _) => IndexName(k)
    case Indirect(_) => "call_indirect"
    case MemSize => "memory.size"
    case MemGrow => "memory.grow"
    case Select => "select"
    case Drop => "drop"
    case Load(w, n, s, _) => WidthName(w) + LoadName(w, n, s)
    case Store(w, n, _) => WidthName(w) + StoreName(w, n)
  }

  function MemAtoms(m: MemText): seq<Sx>
  {
    (match m.offset case Some(o) => [Atom("offset=" + Dec(o))] case None => [])
    + (match m.align case Some(a) => [Atom("align=" + Dec(a))] case None => [])
  }

  /** The immediates, as they are written after the mnemonic. */
  function Immediates(op: Op): seq<Sx>
  {
    match op
    case Const(_, text) => [Atom(text)]
    case Index(_, r) => [Atom(RefText(r))]
    case Indirect(t) => [List([Atom("type"), Atom(RefText(t))])]
    case Load(_, _, _, m) => MemAtoms(m)
    case Store(_, _, m) => MemAtoms(m)
    case _ => []
  }

  function TypeText(bt: byte): string
  {
    if bt == TYPE_I32 then "i32" else if bt == TYPE_I64 then "i64" else if bt == TYPE_F32 then "f32" else "f64"
  }

  function NameText(name: Option<string>): seq<Sx>
  {
    match name case Some(s) => [Atom("$" + s)] case None => []
  }

  function ResultForm(bt: byte): seq<Sx>
  {
    if bt == TYPE_VOID then [] else [List([Atom("result"), Atom(TypeText(bt))])]
  }

  function BlockName(loop: bool): string { if loop then "loop" else "block" }

  /** The folded form. */
  function Fold(x: Ast): (r: Sx)
    requires AstOk(x)
    ensures r.List?
    decreases x
  {
    match x
    case Node(op, args) => List([Atom(Mnemonic(op))] + Immediates(op) + FoldSeq(args))
    case Block(loop, name, bt, body) =>
      List([Atom(BlockName(loop))] + NameText(name) + ResultForm(bt) + FoldSeq(body))
    case If(name, bt, cond, thn, els) =>
      List([Atom("if")] + NameText(name) + ResultForm(bt) + [Fold(cond)]
           + [List([Atom("then")] + FoldSeq(thn)), List([Atom("else")] + FoldSeq(els))])
  }

  function FoldSeq(xs: seq<Ast>): (r: seq<Sx>)
    requires SeqOk(xs)
    ensures |r| == |xs|
    ensures forall i :: 0 <= i < |r| ==> r[i].List?
    decreases xs
  {
    if xs == [] then [] else [Fold(xs[0])] + FoldSeq(xs[1..])
  }

  /** The flat form: operands first, constructs closed by end. Result types have no flat form. */
  function Flat(x: Ast): seq<Sx>
    requires AstOk(x)
    decreases x
  {
    match x
    case Node(op, args) => FlatSeq(args) + ([Atom(Mnemonic(op))] + Immediates(op))
    case Block(loop, name, _, body) => [Atom(BlockName(loop))] + NameText(name) + FlatSeq(body) + [Atom("end")]
    case If(name, _, cond, thn, els) =>
      Flat(cond) + ([Atom("if")] + NameText(name) + FlatSeq(thn) + [Atom("else")] + FlatSeq(els) + [Atom("end")])
  }

  function FlatSeq(xs: seq<Ast>): seq<Sx>
    requires SeqOk(xs)
    decreases xs
  {
    if xs == [] then [] else Flat(xs[0]) + FlatSeq(xs[1..])
  }

  // ----- meaning: names resolved -----

  /** The leaf instruction an Op stands for where the given labels are in scope. */
  function LeafOf(a: A.Names, labels: A.Labels, op: Op): Option<Leaf>
    requires OpOk(op)
  {
    match op
    case Numeric(p) => Some(P(p))
    case Return => Some(Leaf.Return)
    case Const(w, text) => Some(P(Plain.Const(w, LitValue(w, text))))
    case Index(k, r) => IndexLeaf(k, ResolveIndex(a, labels, k, r))
    case Indirect(t) =>
      (match A.ResolveName(a.types, RefText(t)) case Some(i) => Some(CallIndirect(i)) case None => None)
    case MemSize => Some(P(Plain.MemSize))
    case MemGrow => Some(P(Plain.MemGrow))
    case Select => Some(P(Plain.Select))
    case Drop => Some(P(Plain.Drop))
    case Load(w, n, s, m) => Some(P(Plain.Load(w, n, s, OffsetOf(m))))
    case Store(w, n, m) => Some(P(Plain.Store(w, n, OffsetOf(m))))
  }

  function ResolveIndex(a: A.Names, labels: A.Labels, k: IndexKind, r: Ref): Option<nat>
  {
    match k
    case Br | BrIf => A.ResolveLabel(labels, RefText(r))
    case Call => A.ResolveName(a.funcs, RefText(r))
    case LocalGet | LocalSet | LocalTee => A.ResolveName(a.locals, RefText(r))
    case GlobalGet | GlobalSet => A.ResolveName(a.globals, RefText(r))
  }

  function IndexLeaf(k: IndexKind, i: Option<nat>): Option<Leaf>
  {
    if i.None? then None
    else
      match k
      case LocalGet => Some(P(Plain.LocalGet(i.value)))
      case LocalSet => Some(P(Plain.LocalSet(i.value)))
      case LocalTee => Some(P(Plain.LocalTee(i.value)))
      case GlobalGet => Some(P(Plain.GlobalGet(i.value)))
      case GlobalSet => Some(P(Plain.GlobalSet(i.value)))
      case Call => Some(Leaf.Call(i.value))
      case Br => Some(Leaf.Br(i.value))
      case BrIf => Some(Leaf.BrIf(i.value))
  }

  function Join(a: Option<seq<Ins>>, b: Option<seq<Ins>>): Option<seq<Ins>>
  {
    if a.Some? && b.Some? then Some(a.value + b.value) else None
  }

  /**
   A program with its names resolved: the abbreviations of section 6.5 of the WebAssembly Core
   Specification 1.0 expanded (emitted: false), or what the assembler emits for the folded form (emitted: true),
   where an if's condition is resolved in the scope inside the if and only the operands taken are kept.
   */
  function Lower(a: A.Names, labels: A.Labels, x: Ast, emitted: bool): Option<seq<Ins>>
    requires AstOk(x)
    decreases x
  {
    match x
    case Node(op, args) =>
      if emitted then
        if Takes(op, |args|).None? then None
        else
          TakenOk(op, args);
          Join(LowerSeq(a, labels, Taken(op, args), true), LeafCode(LeafOf(a, labels, op)))
      else Join(LowerSeq(a, labels, args, false), LeafCode(LeafOf(a, labels, op)))
    case Block(loop, name, bt, body) =>
      (match LowerSeq(a, labels + [name], body, emitted)
       case Some(ins) => Some([Ins.Block(loop, bt, ins)])
       case None => None)
    case If(name, bt, cond, thn, els) =>
      var c := Lower(a, if emitted then labels + [name] else labels, cond, emitted);
      (match (LowerSeq(a, labels + [name], thn, emitted), LowerSeq(a, labels + [name], els, emitted))
       case (Some(t), Some(e)) => Join(c, Some([Ins.If(bt, t, e)]))
       case _ => None)
  }

  function LeafCode(l: Option<Leaf>): Option<seq<Ins>>
  {
    match l case Some(l) => Some([L(l)]) case None => None
  }

  lemma {:induction false} PrefixOk(xs: seq<Ast>, t: nat)
    requires SeqOk(xs) && t <= |xs|
    ensures SeqOk(xs[..t])
  {
    if t > 0 {
      PrefixOk(xs[1..], t - 1);
      assert xs[..t][1..] == xs[1..][..t - 1];
    }
  }

  lemma TakenOk(op: Op, args: seq<Ast>)
    requires SeqOk(args)
    ensures SeqOk(Taken(op, args))
  {
    match Takes(op, |args|)
    case Some(t) => if t < |args| { PrefixOk(args, t); }
    case None =>
  }

  function LowerSeq(a: A.Names, labels: A.Labels, xs: seq<Ast>, emitted: bool): Option<seq<Ins>>
    requires SeqOk(xs)
    decreases xs
  {
    if xs == [] then Some([]) else Join(Lower(a, labels, xs[0], emitted), LowerSeq(a, labels, xs[1..], emitted))
  }

  // ----- names -----

  /** The entity i is what r stands for. */
  predicate Denotes(names: seq<Option<string>>, r: Ref, i: nat)
  {
    match r case Num(n) => i == n case Name(x) => i < |names| && names[i] == Some(x)
  }

  /** With unique names a reference resolves to what it stands for, and to nothing else. */
  lemma ResolvesIff(names: seq<Option<string>>, r: Ref, i: nat)
    requires A.Unique(names) && RefOk(r)
    ensures A.ResolveName(names, RefText(r)) == Some(i) <==> Denotes(names, r, i)
  {
    hide A.FindName, Dec;
    A.FirstIsOnlyIff(names);
    if r.Name? {
      assert RefText(r)[1..] == r.s && RefText(r)[0] == '$';
      assert A.FindName(names, r.s) == Some(i) <==> i < |names| && names[i] == Some(r.s);
    } else {
      IndexOfDec(r.n);
    }
  }

  // ----- conditions -----

  predicate IsLabelRef(op: Op) { op.Index? && (op.k.Br? || op.k.BrIf?) && op.r.Name? }

  /** Every branch by name in x finds its label among inner, the labels of constructs inside x. */
  predicate NamesInside(inner: A.Labels, x: Ast)
    decreases x
  {
    match x
    case Node(op, args) => (IsLabelRef(op) ==> Some(op.r.s) in inner) && NamesInsideSeq(inner, args)
    case Block(_, name, _, body) => NamesInsideSeq(inner + [name], body)
    case If(name, _, cond, thn, els) =>
      NamesInside(inner, cond) && NamesInsideSeq(inner + [name], thn) && NamesInsideSeq(inner + [name], els)
  }

  predicate NamesInsideSeq(inner: A.Labels, xs: seq<Ast>)
    decreases xs
  {
    xs == [] || (NamesInside(inner, xs[0]) && NamesInsideSeq(inner, xs[1..]))
  }

  /** No if condition branches by name out of itself, and no instruction has an operand the assembler drops. */
  predicate PlainConds(x: Ast)
    decreases x
  {
    match x
    case Node(op, args) => TakesAll(op, args) && PlainCondsSeq(args)
    case Block(_, _, _, body) => PlainCondsSeq(body)
    case If(_, _, cond, thn, els) => NamesInside([], cond) && PlainConds(cond) && PlainCondsSeq(thn) && PlainCondsSeq(els)
  }

  predicate PlainCondsSeq(xs: seq<Ast>)
    decreases xs
  {
    xs == [] || (PlainConds(xs[0]) && PlainCondsSeq(xs[1..]))
  }
}
