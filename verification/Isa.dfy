/** The instruction set: opcodes, immediates, their bytes, and the structured code over them. */
module Isa {
  import opened Bytes
  import opened Leb

  datatype Width = W32 | W64
  datatype UnOp = Eqz | Clz | Ctz | Popcnt
  datatype BinOp = Add | Sub | Mul | DivS | DivU | RemS | RemU | And | Or | Xor | Shl | ShrS | ShrU | Rotl | Rotr
  datatype RelOp = Eq | Ne | LtS | LtU | GtS | GtU | LeS | LeU | GeS | GeU
  datatype CvtOp = WrapI64 | ExtendS | ExtendU

  /** An instruction that is not a branch, a construct or a call, with its immediates. */
  datatype Plain =
    | Unreachable
    | Nop
    | Drop
    | Select
    | LocalGet(i: nat)
    | LocalSet(i: nat)
    | LocalTee(i: nat)
    | GlobalGet(i: nat)
    | GlobalSet(i: nat)
    | Load(w: Width, bytes: nat, signed: bool, offset: nat)
    | Store(w: Width, bytes: nat, offset: nat)
    | MemSize
    | MemGrow
    | Const(w: Width, v: int)
    | Un(w: Width, uop: UnOp)
    | Bin(w: Width, bop: BinOp)
    | Rel(w: Width, rop: RelOp)
    | Cvt(cop: CvtOp)
    | BrTable(targets: seq<byte>)

  const TYPE_VOID: byte := 0x40
  const TYPE_I32: byte := 0x7F
  const TYPE_I64: byte := 0x7E
  const TYPE_F32: byte := 0x7D
  const TYPE_F64: byte := 0x7C

  const OP_BLOCK: byte := 0x02
  const OP_LOOP: byte := 0x03
  const OP_IF: byte := 0x04
  const OP_ELSE: byte := 0x05
  const OP_END: byte := 0x0B
  const OP_BR: byte := 0x0C
  const OP_BR_IF: byte := 0x0D
  const OP_BR_TABLE: byte := 0x0E
  const OP_RETURN: byte := 0x0F
  const OP_CALL: byte := 0x10
  const OP_CALL_INDIRECT: byte := 0x11

  function Bits(w: Width): nat { if w == W32 then 32 else 64 }

  function Size(w: Width): nat { if w == W32 then 4 else 8 }

  // ----- opcode tables -----

  function UnCode(w: Width, op: UnOp): byte
  {
    match op
    case Eqz => if w == W32 then 0x45 else 0x50
    case Clz => if w == W32 then 0x67 else 0x79
    case Ctz => if w == W32 then 0x68 else 0x7A
    case Popcnt => if w == W32 then 0x69 else 0x7B
  }

  function RelCode(w: Width, op: RelOp): byte
  {
    var base := if w == W32 then 0x46 else 0x51;
    match op
    case Eq => base case Ne => base + 1 case LtS => base + 2 case LtU => base + 3
    case GtS => base + 4 case GtU => base + 5 case LeS => base + 6 case LeU => base + 7
    case GeS => base + 8 case GeU => base + 9
  }

  function BinCode(w: Width, op: BinOp): byte
  {
    var base := if w == W32 then 0x6A else 0x7C;
    match op
    case Add => base case Sub => base + 1 case Mul => base + 2 case DivS => base + 3
    case DivU => base + 4 case RemS => base + 5 case RemU => base + 6 case And => base + 7
    case Or => base + 8 case Xor => base + 9 case Shl => base + 10 case ShrS => base + 11
    case ShrU => base + 12 case Rotl => base + 13 case Rotr => base + 14
  }

  function CvtCode(op: CvtOp): byte
  {
    match op case WrapI64 => 0xA7 case ExtendS => 0xAC case ExtendU => 0xAD
  }

  function LoadCode(w: Width, bytes: nat, signed: bool): byte
  {
    match w
    case W32 => if bytes == 4 then 0x28 else if bytes == 1 then (if signed then 0x2C else 0x2D)
                else if signed then 0x2E else 0x2F
    case W64 => if bytes == 8 then 0x29 else if bytes == 1 then (if signed then 0x30 else 0x31)
                else if bytes == 2 then (if signed then 0x32 else 0x33)
                else if signed then 0x34 else 0x35
  }

  function StoreCode(w: Width, bytes: nat): byte
  {
    match w
    case W32 => if bytes == 4 then 0x36 else if bytes == 1 then 0x3A else 0x3B
    case W64 => if bytes == 8 then 0x37 else if bytes == 1 then 0x3C else if bytes == 2 then 0x3D else 0x3E
  }

  function Opcode(p: Plain): byte
  {
    match p
    case Unreachable => 0x00
    case Nop => 0x01
    case Drop => 0x1A
    case Select => 0x1B
    case LocalGet(_) => 0x20
    case LocalSet(_) => 0x21
    case LocalTee(_) => 0x22
    case GlobalGet(_) => 0x23
    case GlobalSet(_) => 0x24
    case Load(w, n, s, _) => LoadCode(w, n, s)
    case Store(w, n, _) => StoreCode(w, n)
    case MemSize => 0x3F
    case MemGrow => 0x40
    case Const(w, _) => if w == W32 then 0x41 else 0x42
    case Un(w, op) => UnCode(w, op)
    case Bin(w, op) => BinCode(w, op)
    case Rel(w, op) => RelCode(w, op)
    case Cvt(op) => CvtCode(op)
    case BrTable(_) => OP_BR_TABLE
  }

  /** The access widths that have an opcode. */
  predicate AccessWidth(w: Width, bytes: nat)
  {
    bytes == 1 || bytes == 2 || bytes == 4 || (w == W64 && bytes == 8)
  }

  /** Immediates in the ranges the assembler can write. */
  predicate Encodable(p: Plain)
  {
    match p
    case LocalGet(i) => i < 0x8000_0000
    case LocalSet(i) => i < 0x8000_0000
    case LocalTee(i) => i < 0x8000_0000
    case GlobalGet(i) => i < 0x8000_0000
    case GlobalSet(i) => i < 0x8000_0000
    case Load(w, n, s, o) => AccessWidth(w, n) && o < 0x1_0000_0000 && (n == Size(w) ==> !s)
    case Store(w, n, o) => AccessWidth(w, n) && o < 0x1_0000_0000
    case Const(W32, v) => -0x8000_0000 <= v < 0x8000_0000
    case Const(W64, v) => -0x8000_0000_0000_0000 <= v < 0x8000_0000_0000_0000
    case BrTable(ts) => 1 <= |ts| < 0x1_0000_0000
    case _ => true
  }

  function Immediates(p: Plain): seq<byte>
  {
    match p
    case LocalGet(i) => LebU(i)
    case LocalSet(i) => LebU(i)
    case LocalTee(i) => LebU(i)
    case GlobalGet(i) => LebU(i)
    case GlobalSet(i) => LebU(i)
    case Load(_, _, _, o) => LebU(0) + LebU(o)
    case Store(_, _, o) => LebU(0) + LebU(o)
    case MemSize => [0x00]
    case MemGrow => [0x00]
    case Const(_, v) => LebS(v)
    case BrTable(ts) => LebU(if |ts| == 0 then 0 else |ts| - 1) + ts
    case _ => []
  }

  function EncPlain(p: Plain): seq<byte> { [Opcode(p)] + Immediates(p) }

  // ----- decoding -----

  function BinAt(i: nat): BinOp
    requires i < 15
  {
    if i == 0 then Add else if i == 1 then Sub else if i == 2 then Mul else if i == 3 then DivS
    else if i == 4 then DivU else if i == 5 then RemS else if i == 6 then RemU else if i == 7 then And
    else if i == 8 then Or else if i == 9 then Xor else if i == 10 then Shl else if i == 11 then ShrS
    else if i == 12 then ShrU else if i == 13 then Rotl else Rotr
  }

  function RelAt(i: nat): RelOp
    requires i < 10
  {
    if i == 0 then Eq else if i == 1 then Ne else if i == 2 then LtS else if i == 3 then LtU
    else if i == 4 then GtS else if i == 5 then GtU else if i == 6 then LeS else if i == 7 then LeU
    else if i == 8 then GeS else GeU
  }

  function UnAt(i: nat): UnOp
    requires i < 3
  {
    if i == 0 then Clz else if i == 1 then Ctz else Popcnt
  }

  /** The opcodes that take no immediate and are not control instructions. */
  function Bare(b: byte): Option<Plain>
  {
    if b == 0x00 then Some(Unreachable)
    else if b == 0x01 then Some(Nop)
    else if b == 0x1A then Some(Drop)
    else if b == 0x1B then Some(Select)
    else if b == 0x45 then Some(Un(W32, Eqz))
    else if 0x46 <= b <= 0x4F then Some(Rel(W32, RelAt(b - 0x46)))
    else if b == 0x50 then Some(Un(W64, Eqz))
    else if 0x51 <= b <= 0x5A then Some(Rel(W64, RelAt(b - 0x51)))
    else if 0x67 <= b <= 0x69 then Some(Un(W32, UnAt(b - 0x67)))
    else if 0x6A <= b <= 0x78 then Some(Bin(W32, BinAt(b - 0x6A)))
    else if 0x79 <= b <= 0x7B then Some(Un(W64, UnAt(b - 0x79)))
    else if 0x7C <= b <= 0x8A then Some(Bin(W64, BinAt(b - 0x7C)))
    else if b == 0xA7 then Some(Cvt(WrapI64))
    else if b == 0xAC then Some(Cvt(ExtendS))
    else if b == 0xAD then Some(Cvt(ExtendU))
    else None
  }

  /** The width, access width and sign of an integer load or store opcode. */
  function Access(b: byte): Option<(Width, nat, bool)>
  {
    if b == 0x28 || b == 0x36 then Some((W32, 4, false))
    else if b == 0x29 || b == 0x37 then Some((W64, 8, false))
    else if b == 0x2C then Some((W32, 1, true)) else if b == 0x2D || b == 0x3A then Some((W32, 1, false))
    else if b == 0x2E then Some((W32, 2, true)) else if b == 0x2F || b == 0x3B then Some((W32, 2, false))
    else if b == 0x30 then Some((W64, 1, true)) else if b == 0x31 || b == 0x3C then Some((W64, 1, false))
    else if b == 0x32 then Some((W64, 2, true)) else if b == 0x33 || b == 0x3D then Some((W64, 2, false))
    else if b == 0x34 then Some((W64, 4, true)) else if b == 0x35 || b == 0x3E then Some((W64, 4, false))
    else None
  }

  /** An instruction read at p with its immediates, or none: not one of the modelled plain ones. */
  datatype Fetched = Fetched(p: Plain, next: nat) | NotPlain

  function FetchIndex(code: seq<byte>, p: nat): Fetched
    requires p < |code|
  {
    match ReadU32(code, p + 1)
    case PastEnd => NotPlain
    case Got(i, next) =>
      var b := code[p];
      Fetched(if b == 0x20 then LocalGet(i) else if b == 0x21 then LocalSet(i) else if b == 0x22 then LocalTee(i)
              else if b == 0x23 then GlobalGet(i) else if b == 0x24 then GlobalSet(i)
              else if b == 0x3F then MemSize else MemGrow, next)
  }

  function FetchAccess(code: seq<byte>, p: nat): Fetched
    requires p < |code|
  {
    match (Access(code[p]), ReadU32(code, p + 1))
    case (Some((w, n, s)), Got(_, q)) =>
      (match ReadU32(code, q)
       case Got(o, next) => Fetched(if code[p] < 0x36 then Load(w, n, s, o) else Store(w, n, o), next)
       case PastEnd => NotPlain)
    case _ => NotPlain
  }

  function FetchConst(code: seq<byte>, p: nat): Fetched
    requires p < |code|
  {
    if code[p] == 0x41 then
      match ReadSigned(code, p + 1, 32)
      case Got(v, next) => Fetched(Const(W32, Signed32(Wrap32(v))), next)
      case PastEnd => NotPlain
    else
      match ReadSigned(code, p + 1, 64)
      case Got(v, next) => Fetched(Const(W64, Signed64(Wrap64(v))), next)
      case PastEnd => NotPlain
  }

  /** What the switch of exec_instructions reads for a plain instruction at p. */
  function Fetch(code: seq<byte>, p: nat): (r: Fetched)
    ensures r.Fetched? ==> p < r.next
  {
    if p >= |code| then NotPlain
    else
      var b := code[p];
      if 0x20 <= b <= 0x24 || b == 0x3F || b == 0x40 then FetchIndex(code, p)
      else if 0x28 <= b <= 0x3E then FetchAccess(code, p)
      else if b == 0x41 || b == 0x42 then FetchConst(code, p)
      else match Bare(b)
           case Some(q) => Fetched(q, p + 1)
           case None => NotPlain
  }

  lemma BareOfOpcode(p: Plain)
    requires p.Un? || p.Bin? || p.Rel? || p.Cvt? || p.Unreachable? || p.Nop? || p.Drop? || p.Select?
    ensures Bare(Opcode(p)) == Some(p)
  {
  }

  lemma AccessOfOpcode(p: Plain)
    requires (p.Load? || p.Store?) && Encodable(p)
    ensures Access(Opcode(p)) == Some((p.w, p.bytes, p.Load? && p.signed))
    ensures 0x28 <= Opcode(p) <= 0x3E && (Opcode(p) < 0x36 <==> p.Load?)
  {
  }

  /** Decoding inverts encoding, whatever follows the instruction. */
  lemma FetchOfEnc(code: seq<byte>, at: nat, p: Plain)
    requires Encodable(p) && !p.BrTable? && At(code, at, EncPlain(p))
    ensures Fetch(code, at) == Fetched(p, at + |EncPlain(p)|)
  {
    AtCons(code, at, Opcode(p), Immediates(p));
    if p.Load? || p.Store? {
      FetchOfAccess(code, at, p);
    } else if p.Const? {
      FetchOfConst(code, at, p);
    } else if p.Un? || p.Bin? || p.Rel? || p.Cvt? || p.Unreachable? || p.Nop? || p.Drop? || p.Select? {
      BareOfOpcode(p);
      BareIsNotIndexed(Opcode(p));
    } else {
      FetchOfIndex(code, at, p);
    }
  }

  lemma BareIsNotIndexed(b: byte)
    requires Bare(b).Some?
    ensures !(0x20 <= b <= 0x24) && !(0x28 <= b <= 0x42)
  {
  }

  lemma FetchOfIndex(code: seq<byte>, at: nat, p: Plain)
    requires Encodable(p) && At(code, at + 1, Immediates(p)) && at < |code| && code[at] == Opcode(p)
    requires p.LocalGet? || p.LocalSet? || p.LocalTee? || p.GlobalGet? || p.GlobalSet? || p.MemSize? || p.MemGrow?
    ensures Fetch(code, at) == Fetched(p, at + 1 + |Immediates(p)|)
  {
    var i := if p.MemSize? || p.MemGrow? then 0 else p.i;
    assert Immediates(p) == LebU(i);
    LebU32RoundTrip(code, at + 1, i);
  }

  lemma FetchOfConst(code: seq<byte>, at: nat, p: Plain)
    requires Encodable(p) && At(code, at + 1, Immediates(p)) && at < |code| && code[at] == Opcode(p)
    requires p.Const?
    ensures Fetch(code, at) == Fetched(p, at + 1 + |Immediates(p)|)
  {
    assert Fetch(code, at) == FetchConst(code, at);
    if p.w == W32 {
      LebS32RoundTrip(code, at + 1, p.v);
      WrapTwice(p.v);
    } else {
      LebS64RoundTrip(code, at + 1, p.v);
      WrapTwice(p.v);
    }
  }

  lemma WrapTwice(v: int)
    ensures Wrap32(Wrap32(v)) == Wrap32(v) && Wrap64(Wrap64(v)) == Wrap64(v)
  {
  }

  lemma FetchOfAccess(code: seq<byte>, at: nat, p: Plain)
    requires Encodable(p) && At(code, at + 1, Immediates(p)) && at < |code| && code[at] == Opcode(p)
    requires p.Load? || p.Store?
    ensures Fetch(code, at) == Fetched(p, at + 1 + |Immediates(p)|)
  {
    AccessOfOpcode(p);
    MemArgRoundTrip(code, at + 1, p.offset);
    assert LebU(0) == [0x00];
    assert Fetch(code, at) == FetchAccess(code, at);
  }

  lemma MemArgRoundTrip(code: seq<byte>, at: nat, o: u32)
    requires At(code, at, LebU(0) + LebU(o))
    ensures ReadU32(code, at) == Got(0, at + 1)
    ensures ReadU32(code, at + 1) == Got(o, at + 1 + |LebU(o)|)
  {
    AtConcat(code, at, LebU(0), LebU(o));
    LebU32RoundTrip(code, at, 0);
    LebU32RoundTrip(code, at + 1, o);
  }

  // ----- structured code -----

  datatype Leaf =
    | P(p: Plain)
    | Br(n: nat)
    | BrIf(n: nat)
    | Return
    | Call(f: nat)
    | CallIndirect(t: nat)

  /** Code with its constructs as trees and its labels as relative depths. */
  datatype Ins =
    | L(l: Leaf)
    | Block(loop: bool, bt: byte, body: seq<Ins>)
    | If(bt: byte, thn: seq<Ins>, els: seq<Ins>)

  function EncLeaf(l: Leaf): (r: seq<byte>)
    ensures |r| >= 1
  {
    match l
    case P(p) => EncPlain(p)
    case Br(n) => [OP_BR] + LebU(n)
    case BrIf(n) => [OP_BR_IF] + LebU(n)
    case Return => [OP_RETURN]
    case Call(f) => [OP_CALL] + LebU(f)
    case CallIndirect(t) => [OP_CALL_INDIRECT] + LebU(t) + [0x00]
  }

  function BlockOp(loop: bool): byte { if loop then OP_LOOP else OP_BLOCK }

  function EncSeq(ins: seq<Ins>): seq<byte>
    decreases ins
  {
    if ins == [] then [] else Enc(ins[0]) + EncSeq(ins[1..])
  }

  function Enc(i: Ins): (r: seq<byte>)
    ensures |r| >= 1
    decreases i
  {
    match i
    case L(l) => EncLeaf(l)
    case Block(loop, bt, body) => [BlockOp(loop), bt] + EncSeq(body) + [OP_END]
    case If(bt, thn, els) => [OP_IF, bt] + EncSeq(thn) + [OP_ELSE] + EncSeq(els) + [OP_END]
  }

  lemma {:induction false} EncSeqConcat(a: seq<Ins>, b: seq<Ins>)
    ensures EncSeq(a + b) == EncSeq(a) + EncSeq(b)
    decreases a
  {
    if a == [] {
      assert a + b == b;
    } else {
      assert (a + b)[1..] == a[1..] + b;
      EncSeqConcat(a[1..], b);
    }
  }

  // ----- code in place -----

  function LenSeq(ins: seq<Ins>): nat
    decreases ins
  {
    if ins == [] then 0 else Len(ins[0]) + LenSeq(ins[1..])
  }

  /** The number of bytes of an instruction. */
  function Len(i: Ins): (n: nat)
    ensures n >= 1
    decreases i
  {
    match i
    case L(l) => |EncLeaf(l)|
    case Block(_, _, body) => LenSeq(body) + 3
    case If(_, thn, els) => LenSeq(thn) + LenSeq(els) + 4
  }

  /** The code of ins lies at position at, part by part. */
  ghost predicate SitsSeq(code: seq<byte>, at: nat, ins: seq<Ins>)
    decreases ins
  {
    ins == [] || (Sits(code, at, ins[0]) && SitsSeq(code, at + Len(ins[0]), ins[1..]))
  }

  ghost predicate Sits(code: seq<byte>, at: nat, i: Ins)
    decreases i
  {
    at + Len(i) <= |code| &&
    match i
    case L(l) => At(code, at, EncLeaf(l))
    case Block(loop, bt, body) =>
      && code[at] == BlockOp(loop) && code[at + 1] == bt && code[at + 2 + LenSeq(body)] == OP_END
      && SitsSeq(code, at + 2, body)
    case If(bt, thn, els) =>
      var mid, end := at + 2 + LenSeq(thn), at + 3 + LenSeq(thn) + LenSeq(els);
      && code[at] == OP_IF && code[at + 1] == bt && code[mid] == OP_ELSE && code[end] == OP_END
      && SitsSeq(code, at + 2, thn) && SitsSeq(code, mid + 1, els)
  }

  lemma {:induction false} EncSeqSits(code: seq<byte>, at: nat, ins: seq<Ins>)
    requires At(code, at, EncSeq(ins))
    ensures |EncSeq(ins)| == LenSeq(ins) && SitsSeq(code, at, ins)
    decreases ins
  {
    hide At;
    if ins != [] {
      AtConcat(code, at, Enc(ins[0]), EncSeq(ins[1..]));
      EncSits(code, at, ins[0]);
      EncSeqSits(code, at + |Enc(ins[0])|, ins[1..]);
    }
  }

  lemma {:induction false} EncSits(code: seq<byte>, at: nat, i: Ins)
    requires At(code, at, Enc(i))
    ensures |Enc(i)| == Len(i) && Sits(code, at, i)
    decreases i
  {
    hide At, EncLeaf;
    AtInside(code, at, Enc(i));
    match i
    case L(l) =>
    case Block(loop, bt, body) =>
      SplitConstruct(code, at, BlockOp(loop), bt, EncSeq(body));
      EncSeqSits(code, at + 2, body);
    case If(bt, thn, els) =>
      SplitIf(code, at, bt, EncSeq(thn), EncSeq(els));
      EncSeqSits(code, at + 2, thn);
      EncSeqSits(code, at + 3 + |EncSeq(thn)|, els);
  }

  lemma SplitConstruct(code: seq<byte>, at: nat, op: byte, bt: byte, body: seq<byte>)
    requires At(code, at, [op, bt] + body + [OP_END])
    ensures at + 2 + |body| < |code|
    ensures code[at] == op && code[at + 1] == bt && code[at + 2 + |body|] == OP_END
    ensures At(code, at + 2, body)
  {
    AtConcat(code, at, [op, bt] + body, [OP_END]);
    AtConcat(code, at, [op, bt], body);
    AtBytes(code, at, [op, bt]);
    AtBytes(code, at + 2 + |body|, [OP_END]);
  }

  lemma SplitIf(code: seq<byte>, at: nat, bt: byte, thn: seq<byte>, els: seq<byte>)
    requires At(code, at, [OP_IF, bt] + thn + [OP_ELSE] + els + [OP_END])
    ensures at + 3 + |thn| + |els| < |code|
    ensures code[at] == OP_IF && code[at + 1] == bt
    ensures code[at + 2 + |thn|] == OP_ELSE && code[at + 3 + |thn| + |els|] == OP_END
    ensures At(code, at + 2, thn) && At(code, at + 3 + |thn|, els)
  {
    var a, b, c := [OP_IF, bt] + thn, [OP_IF, bt] + thn + [OP_ELSE], [OP_IF, bt] + thn + [OP_ELSE] + els;
    AtConcat(code, at, c, [OP_END]);
    AtConcat(code, at, b, els);
    AtConcat(code, at, a, [OP_ELSE]);
    AtConcat(code, at, [OP_IF, bt], thn);
    AtBytes(code, at, [OP_IF, bt]);
    AtBytes(code, at + |a|, [OP_ELSE]);
    AtBytes(code, at + |c|, [OP_END]);
  }

  lemma AtInside(code: seq<byte>, at: nat, bs: seq<byte>)
    requires At(code, at, bs)
    ensures at + |bs| <= |code|
  {
  }

  lemma AtBytes(code: seq<byte>, at: nat, bs: seq<byte>)
    requires At(code, at, bs)
    ensures forall k :: 0 <= k < |bs| ==> code[at + k] == bs[k]
  {
    forall k | 0 <= k < |bs| ensures code[at + k] == bs[k] {
      assert code[at..at + |bs|][k] == code[at + k];
    }
  }

  /** How many constructs enclose the innermost instruction. */
  function DepthSeq(ins: seq<Ins>): nat
    decreases ins
  {
    if ins == [] then 0 else Max(Depth(ins[0]), DepthSeq(ins[1..]))
  }

  function Depth(i: Ins): nat
    decreases i
  {
    match i
    case L(_) => 0
    case Block(_, _, body) => 1 + DepthSeq(body)
    case If(_, thn, els) => 1 + Max(DepthSeq(thn), DepthSeq(els))
  }

  function Max(a: nat, b: nat): nat { if a >= b then a else b }
}
