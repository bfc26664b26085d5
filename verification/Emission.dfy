/** What the emitter writes for a well-formed program: the encoding of the program with its names resolved. */
module Emission {
  import opened Bytes
  import opened Leb
  import opened Isa
  import opened Sexpr
  import opened Numerals
  import opened Source
  import A = Assembler

  // ----- the mnemonic table -----

  /** The opcode of an instruction of the source. */
  function OpByte(op: Op): byte
    requires OpOk(op)
  {
    match op
    case Numeric(p) => Opcode(p)
    case Return => OP_RETURN
    case Const(w, _) => if w == W32 then 0x41 else 0x42
    case Index(k, _) => IndexByte(k)
    case Indirect(_) => OP_CALL_INDIRECT
    case MemSize => 0x3F
    case MemGrow => 0x40
    case Select => 0x1B
    case Drop => 0x1A
    case Load(w, n, s, _) => LoadCode(w, n, s)
    case Store(w, n, _) => StoreCode(w, n)
  }

  function IndexByte(k: IndexKind): byte
  {
    match k
    case LocalGet => 0x20 case LocalSet => 0x21 case LocalTee => 0x22 case GlobalGet => 0x23 case GlobalSet => 0x24
    case Call => OP_CALL case Br => OP_BR case BrIf => OP_BR_IF
  }

  lemma TypedUn(w: Width, op: UnOp)
    ensures A.LookupTyped(w, UnName(op)) == Some(UnCode(w, op))
  {
  }

  lemma TypedRel(w: Width, op: RelOp)
    ensures A.LookupTyped(w, RelName(op)) == Some(RelCode(w, op))
  {
  }

  lemma TypedBin(w: Width, op: BinOp)
    ensures A.LookupTyped(w, BinName(op)) == Some(BinCode(w, op))
  {
  }

  lemma TypedCvt(op: CvtOp)
    ensures A.LookupTyped(if op == WrapI64 then W32 else W64, CvtName(op)) == Some(CvtCode(op))
  {
  }

  lemma TypedAccess(w: Width, n: nat, s: bool)
    requires AccessWidth(w, n)
    ensures (n == Size(w) ==> !s) ==> A.LookupTyped(w, LoadName(w, n, s)) == Some(LoadCode(w, n, s))
    ensures A.LookupTyped(w, StoreName(w, n)) == Some(StoreCode(w, n))
  {
  }

  lemma LookupSuffix(w: Width, m: string)
    ensures A.LookupOpcode(WidthName(w) + m) == A.LookupTyped(w, m)
  {
    hide A.LookupTyped;
    assert (WidthName(w) + m)[4..] == m;
  }

  lemma LookupIndex(k: IndexKind)
    ensures A.LookupOpcode(IndexName(k)) == Some(IndexByte(k))
  {
    hide A.LookupTyped;
  }

  /** The table gives every instruction of the source its opcode. */
  lemma LookupMnemonic(op: Op)
    requires OpOk(op)
    ensures A.LookupOpcode(Mnemonic(op)) == Some(OpByte(op))
  {
    hide A.LookupOpcode, LoadName, StoreName, IndexName, NumericName, WidthName, LoadCode, StoreCode, Opcode;
    match op
    case Numeric(p) => LookupNumeric(p);
    case Const(w, _) => LookupSuffix(w, "const"); TypedConst(w);
    case Index(k, _) => LookupIndex(k);
    case Load(w, n, s, _) => LookupAccess(w, n, s);
    case Store(w, n, _) => LookupAccess(w, n, false);
    case _ => LookupOther(op);
  }

  lemma LookupOther(op: Op)
    requires OpOk(op) && (op.Return? || op.Indirect? || op.MemSize? || op.MemGrow? || op.Select? || op.Drop?)
    ensures A.LookupOpcode(Mnemonic(op)) == Some(OpByte(op))
  {
    hide A.LookupTyped;
  }

  lemma LookupAccess(w: Width, n: nat, s: bool)
    requires AccessWidth(w, n)
    ensures (n == Size(w) ==> !s) ==> A.LookupOpcode(WidthName(w) + LoadName(w, n, s)) == Some(LoadCode(w, n, s))
    ensures A.LookupOpcode(WidthName(w) + StoreName(w, n)) == Some(StoreCode(w, n))
  {
    hide A.LookupOpcode, WidthName, LoadName, StoreName, LoadCode, StoreCode;
    LookupSuffix(w, LoadName(w, n, s));
    LookupSuffix(w, StoreName(w, n));
    TypedAccess(w, n, s);
  }

  lemma TypedConst(w: Width)
    ensures A.LookupTyped(w, "const") == Some(if w == W32 then 0x41 else 0x42)
  {
  }

  lemma LookupNumeric(p: Plain)
    requires IsNumeric(p)
    ensures A.LookupOpcode(NumericName(p)) == Some(Opcode(p))
  {
    hide A.LookupTyped, UnName, RelName, BinName, CvtName, WidthName;
    match p
    case Un(w, op) => LookupSuffix(w, UnName(op)); TypedUn(w, op);
    case Rel(w, op) => LookupSuffix(w, RelName(op)); TypedRel(w, op);
    case Bin(w, op) => LookupSuffix(w, BinName(op)); TypedBin(w, op);
    case Cvt(op) => LookupSuffix(if op == WrapI64 then W32 else W64, CvtName(op)); TypedCvt(op);
    case Nop =>
    case Unreachable =>
  }

  /** No mnemonic looks like a name or a memory argument. */
  lemma MnemonicStart(m: string)
    requires A.LookupOpcode(m).Some?
    ensures m != [] && m[0] != '$' && m[0] != 'o' && m[0] != 'a'
  {
    hide A.LookupTyped, A.LookupShort, A.LookupLong;
    if A.OfWidth(m, '3', '2') || A.OfWidth(m, '6', '4') {
    } else if |m| <= 6 {
      ShortStart(m);
    } else {
      LongStart(m);
    }
  }

  lemma ShortStart(m: string)
    requires A.LookupShort(m).Some?
    ensures m != [] && m[0] != '$' && m[0] != 'o' && m[0] != 'a'
  {
  }

  lemma LongStart(m: string)
    requires A.LookupLong(m).Some?
    ensures m != [] && m[0] != '$' && m[0] != 'o' && m[0] != 'a'
  {
  }

  // What the assembler's special cases are called in the table.

  lemma ConstructKeywords()
    ensures A.LookupOpcode("block") == Some(0x02) && A.LookupOpcode("loop") == Some(0x03)
    ensures A.LookupOpcode("if") == Some(0x04) && A.LookupOpcode("else") == Some(0x05)
      && A.LookupOpcode("end") == Some(0x0B)
  {
    hide A.LookupTyped, A.LookupLong;
  }

  lemma ShortKeywords()
    ensures A.LookupOpcode("br") == Some(0x0C) && A.LookupOpcode("br_if") == Some(0x0D)
    ensures A.LookupOpcode("call") == Some(0x10) && A.LookupOpcode("drop") == Some(0x1A)
      && A.LookupOpcode("select") == Some(0x1B)
  {
    hide A.LookupTyped, A.LookupLong;
  }

  lemma NotKeywords()
    ensures A.LookupOpcode("type") == None && A.LookupOpcode("result") == None && A.LookupOpcode("then") == None
  {
    hide A.LookupTyped, A.LookupLong;
  }

  lemma VariableKeywords()
    ensures A.LookupOpcode("local.get") == Some(0x20) && A.LookupOpcode("local.set") == Some(0x21)
      && A.LookupOpcode("local.tee") == Some(0x22)
    ensures A.LookupOpcode("global.get") == Some(0x23) && A.LookupOpcode("global.set") == Some(0x24)
  {
    hide A.LookupTyped, A.LookupShort;
  }

  lemma LongKeywords()
    ensures A.LookupOpcode("br_table") == Some(0x0E) && A.LookupOpcode("call_indirect") == Some(0x11)
    ensures A.LookupOpcode("memory.size") == Some(0x3F) && A.LookupOpcode("memory.grow") == Some(0x40)
    ensures A.LookupOpcode("f32.const") == None && A.LookupOpcode("f64.const") == None
  {
    hide A.LookupTyped, A.LookupShort;
  }

  lemma ConstKeywords()
    ensures A.LookupOpcode("i32.const") == Some(0x41) && A.LookupOpcode("i64.const") == Some(0x42)
  {
    hide A.LookupTyped, A.LookupLong, A.LookupShort;
    LookupSuffix(W32, "const");
    LookupSuffix(W64, "const");
    assert "i32." + "const" == "i32.const" && "i64." + "const" == "i64.const";
    TypedConst(W32);
    TypedConst(W64);
  }

  /** Which special case a mnemonic can be, by its opcode. */
  lemma Dispatch(m: string, b: byte)
    requires A.LookupOpcode(m) == Some(b)
    ensures A.IsConst(m) ==> b == 0x41 || b == 0x42
    ensures A.IsLocal(m) ==> 0x20 <= b <= 0x22
    ensures A.IsGlobal(m) ==> b == 0x23 || b == 0x24
    ensures A.IsBranch(m) ==> b == OP_BR || b == OP_BR_IF
    ensures A.IsBlock(m) ==> b == OP_BLOCK || b == OP_LOOP
    ensures (m == "if" ==> b == OP_IF) && (m == "else" ==> b == OP_ELSE) && (m == "end" ==> b == OP_END)
    ensures (m == "call" ==> b == OP_CALL) && (m == "call_indirect" ==> b == OP_CALL_INDIRECT)
      && (m == "br_table" ==> b == OP_BR_TABLE)
    ensures (m == "memory.size" ==> b == 0x3F) && (m == "memory.grow" ==> b == 0x40)
    ensures (m == "drop" ==> b == 0x1A) && (m == "select" ==> b == 0x1B)
    ensures m != "result" && m != "then" && m != "type"
  {
    hide A.LookupOpcode;
    ConstructKeywords();
    ShortKeywords();
    NotKeywords();
    VariableKeywords();
    LongKeywords();
    ConstKeywords();
  }

  // ----- folded instructions -----

  /** The bytes of a resolved program. */
  ghost function Coded(o: Option<seq<Ins>>): Option<seq<byte>>
  {
    match o case Some(ins) => Some(EncSeq(ins)) case None => None
  }

  /** The part of a folded list from position i on. */
  ghost predicate Tail(k: seq<Sx>, i: nat, rest: seq<Sx>) { i <= |k| && k[i..] == rest }

  lemma EncSnoc(ins: seq<Ins>, i: Ins)
    ensures EncSeq(ins + [i]) == EncSeq(ins) + Enc(i)
  {
    EncSeqConcat(ins, [i]);
    assert [i][1..] == [];
    assert EncSeq([i]) == Enc(i) + EncSeq([]);
  }

  lemma JoinCoded(a: Option<seq<Ins>>, b: Option<seq<Ins>>)
    ensures Coded(Source.Join(a, b)) == A.Join(Coded(a), Coded(b))
  {
    if a.Some? && b.Some? { EncSeqConcat(a.value, b.value); }
  }

  /** From position lo of the list on, the operands taken, then the instruction itself. */
  ghost function LeafPlan(op: Op, n: nat, lo: nat, l: Option<Leaf>): Option<A.Plan>
  {
    if l.None? || Takes(op, n).None? then None else Some(A.Plan(lo, lo + Takes(op, n).value, EncLeaf(l.value)))
  }

  /** The parts of a folded plain instruction's list. */
  ghost predicate NodeParts(op: Op, args: seq<Ast>, k: seq<Sx>)
  {
    AstOk(Node(op, args)) && k == [Atom(Mnemonic(op))] + Source.Immediates(op) + FoldSeq(args)
  }

  lemma PartsOf(op: Op, args: seq<Ast>, k: seq<Sx>)
    requires NodeParts(op, args, k)
    ensures var n := |Source.Immediates(op)|;
      && |k| == 1 + n + |args| && k[0] == Atom(Mnemonic(op)) && Tail(k, 1 + n, FoldSeq(args))
      && (n >= 1 ==> k[1] == Source.Immediates(op)[0])
      && (forall j :: 0 <= j < n ==> k[1 + j] == Source.Immediates(op)[j])
      && (|args| > 0 ==> k[1 + n].List?)
  {
    hide FoldSeq, Mnemonic, Source.Immediates;
    ThreeParts(k, Atom(Mnemonic(op)), Source.Immediates(op), FoldSeq(args));
  }

  lemma ThreeParts(k: seq<Sx>, a: Sx, b: seq<Sx>, c: seq<Sx>)
    requires k == [a] + b + c
    ensures |k| == 1 + |b| + |c| && k[0] == a && Tail(k, 1 + |b|, c)
    ensures (forall j :: 0 <= j < |b| ==> k[1 + j] == b[j]) && (|b| >= 1 ==> k[1] == b[0])
    ensures |c| > 0 ==> k[1 + |b|] == c[0]
  {
    forall j | 0 <= j < |b| ensures k[1 + j] == b[j] { assert ([a] + b)[1 + j] == b[j]; }
    if |b| >= 1 { assert k[1 + 0] == b[0]; }
  }

  lemma PlanBare(a: A.Names, labels: A.Labels, op: Op, args: seq<Ast>, k: seq<Sx>)
    requires NodeParts(op, args, k) && (op.Numeric? || op.Return?)
    ensures A.PlanOf(a, labels, Mnemonic(op), k) == LeafPlan(op, |args|, 1, LeafOf(a, labels, op))
  {
    hide FoldSeq, Mnemonic, A.LookupOpcode;
    LookupMnemonic(op);
    Dispatch(Mnemonic(op), OpByte(op));
    PartsOf(op, args, k);
    if op.Numeric? { BareBytes(op.p); }
  }

  lemma BareBytes(p: Plain)
    requires IsNumeric(p)
    ensures EncPlain(p) == [Opcode(p)]
    ensures Bare(Opcode(p)).Some?
    ensures Opcode(p) <= 1 || 0x45 <= Opcode(p)
  {
  }

  lemma PlanParametric(a: A.Names, labels: A.Labels, op: Op, args: seq<Ast>, k: seq<Sx>)
    requires NodeParts(op, args, k) && (op.MemSize? || op.MemGrow? || op.Select? || op.Drop?)
    ensures A.PlanOf(a, labels, Mnemonic(op), k) == LeafPlan(op, |args|, 1, LeafOf(a, labels, op))
  {
    hide FoldSeq, A.LookupOpcode;
    LookupMnemonic(op);
    Dispatch(Mnemonic(op), OpByte(op));
    PartsOf(op, args, k);
    ParametricBytes();
  }

  lemma ParametricBytes()
    ensures EncPlain(Plain.MemSize) == [0x3F, 0x00] && EncPlain(Plain.MemGrow) == [0x40, 0x00]
    ensures EncPlain(Plain.Select) == [0x1B] && EncPlain(Plain.Drop) == [0x1A]
  {
  }

  lemma PlanConst(a: A.Names, labels: A.Labels, op: Op, args: seq<Ast>, k: seq<Sx>)
    requires NodeParts(op, args, k) && op.Const?
    ensures A.PlanOf(a, labels, Mnemonic(op), k) == LeafPlan(op, |args|, 2, LeafOf(a, labels, op))
  {
    hide FoldSeq, A.LookupOpcode, A.EmitConst, Mnemonic;
    PartsOf(op, args, k);
    ConstText(op.w, op.text);
  }

  lemma ConstText(w: Width, text: string)
    requires LitOk(w, text)
    ensures A.IsConst(WidthName(w) + "const")
    ensures A.EmitConst(WidthName(w) + "const", text) == Some(EncPlain(Plain.Const(w, LitValue(w, text))))
    ensures Mnemonic(Op.Const(w, text)) == WidthName(w) + "const"
  {
    hide IntLit, LebS;
    assert "i32." + "const" == "i32.const" && "i64." + "const" == "i64.const";
    assert "i32.const"[1] != "i64.const"[1];
  }

  lemma PlanIndex(a: A.Names, labels: A.Labels, op: Op, args: seq<Ast>, k: seq<Sx>)
    requires NodeParts(op, args, k) && op.Index?
    ensures A.PlanOf(a, labels, Mnemonic(op), k) == LeafPlan(op, |args|, 2, LeafOf(a, labels, op))
  {
    hide FoldSeq, A.LookupOpcode, A.EmitIndexed, IndexLeaf, ResolveIndex, IndexName, A.IsConst;
    IndexWord(op.k);
    PartsOf(op, args, k);
    IndexedBytes(a, labels, op.k, op.r);
  }

  /** An instruction with one name or number, folded or flat. */
  lemma IndexedBytes(a: A.Names, labels: A.Labels, k: IndexKind, r: Ref)
    ensures var m := IndexName(k);
      A.IsLocal(m) || A.IsGlobal(m) || A.IsBranch(m) || m == "call"
    ensures A.EmitIndexed(a, labels, IndexName(k), RefText(r))
         == match IndexLeaf(k, ResolveIndex(a, labels, k, r)) case Some(l) => Some(EncLeaf(l)) case None => None
  {
    hide A.LookupOpcode, A.ResolveName, A.ResolveLabel, RefText, LebU, IndexName;
    LookupIndex(k);
    IndexWord(k);
  }

  lemma IndexWord(k: IndexKind)
    ensures var m := IndexName(k);
      && !A.IsConst(m) && (m == "local.get" || m == "global.get" || m == "br" <==> k.LocalGet? || k.GlobalGet? || k.Br?)
      && (A.IsBranch(m) <==> k.Br? || k.BrIf?) && (m == "call" <==> k.Call?)
      && (A.IsLocal(m) <==> k.LocalGet? || k.LocalSet? || k.LocalTee?)
      && (A.IsGlobal(m) <==> k.GlobalGet? || k.GlobalSet?)
  {
    hide A.LookupOpcode;
    LookupIndex(k);
    Dispatch(IndexName(k), IndexByte(k));
  }

  lemma PlanIndirect(a: A.Names, labels: A.Labels, op: Op, args: seq<Ast>, k: seq<Sx>)
    requires NodeParts(op, args, k) && op.Indirect?
    ensures A.PlanOf(a, labels, Mnemonic(op), k) == LeafPlan(op, |args|, 2, LeafOf(a, labels, op))
  {
    hide FoldSeq, A.LookupOpcode, A.ResolveName, RefText, LebU;
    LookupMnemonic(op);
    Dispatch(Mnemonic(op), OpByte(op));
    PartsOf(op, args, k);
  }

  lemma PlanAccess(a: A.Names, labels: A.Labels, op: Op, args: seq<Ast>, k: seq<Sx>)
    requires NodeParts(op, args, k) && (op.Load? || op.Store?)
    ensures A.PlanOf(a, labels, Mnemonic(op), k)
      == LeafPlan(op, |args|, 1 + |Source.Immediates(op)|, LeafOf(a, labels, op))
  {
    hide FoldSeq, A.PlanOf, LoadCode, StoreCode, A.ReadMemArg, LebU, Mnemonic, MemAtoms, OpByte, Encodable;
    PartsOf(op, args, k);
    assert OpOk(op);
    LookupMnemonic(op);
    AccessBytes(op);
    AccessPlanned(a, labels, Mnemonic(op), OpByte(op), k);
    MemArgOf(k, |k|, 1, op.mem);
  }

  lemma AccessPlanned(a: A.Names, labels: A.Labels, m: string, b: byte, k: seq<Sx>)
    requires |k| >= 1 && A.LookupOpcode(m) == Some(b) && 0x28 <= b <= 0x3E
    ensures A.PlanOf(a, labels, m, k) == A.PlanAccess(b, k)
  {
    hide A.LookupOpcode, A.PlanAccess;
    Dispatch(m, b);
  }

  lemma AccessBytes(op: Op)
    requires OpOk(op) && (op.Load? || op.Store?)
    ensures 0x28 <= OpByte(op) <= 0x3E && (OpByte(op) >= 0x36 <==> op.Store?) && OffsetOf(op.mem) < 0x1_0000_0000
    ensures [OpByte(op)] + LebU(0) + LebU(OffsetOf(op.mem))
         == EncPlain(if op.Load? then Plain.Load(op.w, op.bytes, op.signed, OffsetOf(op.mem)) else Plain.Store(op.w, op.bytes, OffsetOf(op.mem)))
  {
    hide LebU;
    var p := if op.Load? then Plain.Load(op.w, op.bytes, op.signed, OffsetOf(op.mem)) else Plain.Store(op.w, op.bytes, OffsetOf(op.mem));
    AccessOfOpcode(p);
  }

  /** An element that cannot be taken for a memory argument or a label. */
  predicate Starter(x: Sx) { x.Atom? ==> x.text != [] && x.text[0] != '$' && x.text[0] != 'o' && x.text[0] != 'a' }

  predicate Starts(e: seq<Sx>, n: nat, i: nat)
    requires n <= |e|
  {
    i < n ==> Starter(e[i])
  }

  /** The memory argument's atoms are read back, and nothing after them. */
  lemma MemArgOf(e: seq<Sx>, n: nat, i: nat, m: MemText)
    requires var k := |MemAtoms(m)|;
      i + k <= n <= |e| && (forall j :: 0 <= j < k ==> e[i + j] == MemAtoms(m)[j]) && Starts(e, n, i + k)
    requires OffsetOf(m) < 0x1_0000_0000
    ensures A.ReadMemArg(e, n, i, 0) == A.MemArg(OffsetOf(m), i + |MemAtoms(m)|)
  {
    hide IntLit, Dec, A.ReadMemArg;
    var j := i;
    if m.offset.Some? {
      assert e[i] == MemAtoms(m)[0];
      OffsetAtom(e, n, i, m.offset.value, 0);
      j := i + 1;
    }
    if m.align.Some? {
      assert e[j] == MemAtoms(m)[j - i];
      AlignAtom(e, n, j, m.align.value, OffsetOf(m));
      j := j + 1;
    }
    NoMemArg(e, n, j, OffsetOf(m));
  }

  lemma OffsetAtom(e: seq<Sx>, n: nat, i: nat, o: nat, was: u32)
    requires i < n <= |e| && e[i] == Atom("offset=" + Dec(o)) && o < 0x1_0000_0000
    ensures A.ReadMemArg(e, n, i, was) == A.ReadMemArg(e, n, i + 1, o)
  {
    hide IntLit, Dec;
    var s := "offset=" + Dec(o);
    assert s[..7] == "offset=" && s[7..] == Dec(o);
    IntLitOfText(o);
    assert IntText(o) == Dec(o);
  }

  lemma AlignAtom(e: seq<Sx>, n: nat, i: nat, v: nat, was: u32)
    requires i < n <= |e| && e[i] == Atom("align=" + Dec(v))
    ensures A.ReadMemArg(e, n, i, was) == A.ReadMemArg(e, n, i + 1, was)
  {
    hide IntLit, Dec;
    var s := "align=" + Dec(v);
    assert s[..6] == "align=" && s[0] == 'a';
    Prefixed(s, "offset=");
  }

  lemma NoMemArg(e: seq<Sx>, n: nat, i: nat, o: u32)
    requires i <= n <= |e| && Starts(e, n, i)
    ensures A.ReadMemArg(e, n, i, o) == A.MemArg(o, i)
  {
    hide IntLit;
    hide A.HasPrefix;
    if i < n && e[i].Atom? {
      Prefixed(e[i].text, "offset=");
      Prefixed(e[i].text, "align=");
    }
  }

  lemma Prefixed(s: string, p: string)
    requires p != []
    ensures A.HasPrefix(s, p) ==> s != [] && s[0] == p[0]
  {
    if A.HasPrefix(s, p) { assert s[..|p|][0] == s[0]; }
  }

  /** The plan of every well-formed folded instruction: its operands, then its own bytes. */
  lemma PlanNode(a: A.Names, labels: A.Labels, op: Op, args: seq<Ast>, k: seq<Sx>)
    requires NodeParts(op, args, k)
    ensures |k| >= 1
    ensures A.PlanOf(a, labels, Mnemonic(op), k)
      == LeafPlan(op, |args|, 1 + |Source.Immediates(op)|, LeafOf(a, labels, op))
  {
    hide A.PlanOf, LeafOf, NodeParts, Mnemonic;
    PartsOf(op, args, k);
    match op
    case Numeric(_) | Return => PlanBare(a, labels, op, args, k);
    case Const(_, _) => PlanConst(a, labels, op, args, k);
    case Index(_, _) => PlanIndex(a, labels, op, args, k);
    case Indirect(_) => PlanIndirect(a, labels, op, args, k);
    case MemSize | MemGrow | Select | Drop => PlanParametric(a, labels, op, args, k);
    case Load(_, _, _, _) | Store(_, _, _) => PlanAccess(a, labels, op, args, k);
  }

  /** A folded instruction starts with its mnemonic, so it is none of the forms inside a construct. */
  lemma FoldHead(x: Ast)
    requires AstOk(x)
    ensures A.HeadText(Fold(x)).Some?
    ensures var m := A.HeadText(Fold(x)).value;
      && m != "result" && m != "then" && m != "else" && m != "type"
      && (x.Node? ==> m == Mnemonic(x.op) && !A.IsBlock(m) && m != "if")
      && (x.Block? ==> m == BlockName(x.loop)) && (x.If? ==> m == "if")
  {
    hide FoldSeq, Mnemonic, A.LookupOpcode;
    match x
    case Node(op, args) =>
      LookupMnemonic(op);
      Dispatch(Mnemonic(op), OpByte(op));
      OpNotConstruct(op);
    case Block(loop, _, _, _) =>
    case If(_, _, _, _, _) =>
  }

  lemma OpNotConstruct(op: Op)
    requires OpOk(op)
    ensures OpByte(op) !in {OP_BLOCK, OP_LOOP, OP_IF, OP_ELSE, OP_END}
  {
    if op.Numeric? { BareBytes(op.p); }
    if op.Load? || op.Store? { AccessBytes(op); }
  }

  lemma NodeIs(op: Op, args: seq<Ast>)
    requires AstOk(Node(op, args))
    ensures NodeParts(op, args, Fold(Node(op, args)).kids)
  {
  }

  lemma TypeTextIs(bt: byte)
    requires BlockTypeOk(bt) && bt != TYPE_VOID
    ensures A.ValType(TypeText(bt)) == Some(bt)
  {
  }

  /** A construct's header is read back; what follows it is not taken for part of it. */
  lemma HeaderOf(k: seq<Sx>, head: Sx, name: Option<string>, bt: byte, rest: seq<Sx>)
    requires BlockTypeOk(bt) && k == [head] + NameText(name) + ResultForm(bt) + rest
    requires rest != [] ==> rest[0].List? && !A.IsForm(rest[0], "result")
    ensures |k| >= 1 && A.ReadHeader(k) == Some(A.Header(name, bt, |k| - |rest|)) && Tail(k, |k| - |rest|, rest)
  {
    hide TypeText, A.ValType;
    if bt != TYPE_VOID { TypeTextIs(bt); }
    var i := 1 + |NameText(name)|;
    if name.Some? { assert k[1] == Atom("$" + name.value); assert ("$" + name.value)[1..] == name.value; }
    if bt != TYPE_VOID { assert k[i] == List([Atom("result"), Atom(TypeText(bt))]); }
    else if rest != [] { assert k[i] == rest[0]; }
  }

  /** Folded instructions emit their operands and bodies with the same labels resolved the assembler's way. */
  lemma {:induction false} FoldedEmits(a: A.Names, labels: A.Labels, x: Ast)
    requires AstOk(x)
    ensures A.EmitFolded(a, labels, Fold(x)) == Coded(Lower(a, labels, x, true))
    decreases x, 2
  {
    hide A.EmitArgs, A.EmitBlock, A.EmitIf, A.PlanOf, LeafOf, Mnemonic, FoldSeq, LowerSeq, Source.Immediates, Takes,
      EncLeaf, OpOk;
    FoldHead(x);
    match x
    case Node(op, args) =>
      var k := Fold(x).kids;
      NodeIs(op, args);
      PlanNode(a, labels, op, args, k);
      PartsOf(op, args, k);
      TakenOk(op, args);
      var lo := 1 + |Source.Immediates(op)|;
      if Takes(op, |args|).Some? {
        TakenTail(op, args, k, lo);
        ArgsEmit(a, labels, k, lo, lo + Takes(op, |args|).value, Taken(op, args));
        var l, o := LeafOf(a, labels, op), LowerSeq(a, labels, Taken(op, args), true);
        if l.Some? && o.Some? { EncSnoc(o.value, L(l.value)); }
      }
    case Block(_, _, _, _) => BlockEmits(a, labels, x);
    case If(_, _, _, _, _) => IfEmits(a, labels, x);
  }

  lemma {:induction false} BlockEmits(a: A.Names, labels: A.Labels, x: Ast)
    requires AstOk(x) && x.Block?
    ensures A.EmitBlock(a, labels, BlockName(x.loop), Fold(x).kids) == Coded(Lower(a, labels, x, true))
    decreases x, 1
  {
    hide A.ReadHeader, A.EmitSeq, LowerSeq, FoldSeq;
    var k := Fold(x).kids;
    BodyStarts(x.body);
    HeaderOf(k, Atom(BlockName(x.loop)), x.name, x.bt, FoldSeq(x.body));
    SeqEmits(a, labels + [x.name], k, |k|, |k| - |x.body|, x.body);
    var ins := LowerSeq(a, labels + [x.name], x.body, true);
    if ins.Some? {
      EncOne(Ins.Block(x.loop, x.bt, ins.value));
      BlockBytes(x.loop, x.bt, ins.value);
    }
  }

  lemma BlockBytes(loop: bool, bt: byte, body: seq<Ins>)
    ensures Enc(Ins.Block(loop, bt, body)) == [BlockOp(loop), bt] + (EncSeq(body) + [OP_END])
  {
  }

  lemma IfBytes(bt: byte, thn: seq<Ins>, els: seq<Ins>)
    ensures Enc(Ins.If(bt, thn, els)) == [OP_IF, bt] + (EncSeq(thn) + (([OP_ELSE] + EncSeq(els)) + [OP_END]))
  {
  }

  /** The arms of an if whose list ends in its then form and its else form. */
  lemma ArmsAre(a: A.Names, inner: A.Labels, k: seq<Sx>, t: seq<Sx>, e: seq<Sx>)
    requires |k| >= 2 && k[|k| - 2] == List([Atom("then")] + t) && k[|k| - 1] == List([Atom("else")] + e)
    ensures A.EmitArms(a, inner, k, |k| - 2)
         == A.Join(A.WholeBody(A.EmitSeq(a, inner, [Atom("then")] + t, 1 + |t|, 1)),
              A.Join(A.Join(Some([OP_ELSE]), A.WholeBody(A.EmitSeq(a, inner, [Atom("else")] + e, 1 + |e|, 1))), Some([OP_END])))
  {
    hide A.EmitSeq, A.FindElse, A.WholeBody, A.Join;
    FormIs("then", t);
    FormIs("else", e);
  }

  lemma FormIs(keyword: string, rest: seq<Sx>)
    ensures A.IsForm(List([Atom(keyword)] + rest), keyword)
  {
  }

  lemma EncOne(i: Ins)
    ensures EncSeq([i]) == Enc(i)
  {
    EncSnoc([], i);
    assert [] + [i] == [i];
  }

  lemma BodyStarts(body: seq<Ast>)
    requires SeqOk(body)
    ensures |FoldSeq(body)| == |body|
    ensures body != []
      ==> !A.IsForm(FoldSeq(body)[0], "result") && !A.IsForm(FoldSeq(body)[0], "then") && !A.IsForm(FoldSeq(body)[0], "else")
  {
    hide Fold;
    if body != [] { FoldHead(body[0]); }
  }

  lemma {:induction false} IfEmits(a: A.Names, labels: A.Labels, x: Ast)
    requires AstOk(x) && x.If?
    ensures A.EmitIf(a, labels, Fold(x).kids) == Coded(Lower(a, labels, x, true))
    decreases x, 1
  {
    hide A.ReadHeader, A.EmitSeq, LowerSeq, FoldSeq, A.EmitFolded, A.EmitArms, A.Join, NameText, ResultForm;
    var k := Fold(x).kids;
    var t, e := [Atom("then")] + FoldSeq(x.thn), [Atom("else")] + FoldSeq(x.els);
    IfParts(x, k);
    var inner := labels + [x.name];
    ArmsAre(a, inner, k, FoldSeq(x.thn), FoldSeq(x.els));
    FoldedEmits(a, inner, x.cond);
    SeqEmits(a, inner, t, |t|, 1, x.thn);
    SeqEmits(a, inner, e, |e|, 1, x.els);
    IfCoded(x.bt, Lower(a, inner, x.cond, true), LowerSeq(a, inner, x.thn, true), LowerSeq(a, inner, x.els, true));
  }

  lemma IfParts(x: Ast, k: seq<Sx>)
    requires AstOk(x) && x.If? && k == Fold(x).kids
    ensures |k| >= 4 && A.ReadHeader(k) == Some(A.Header(x.name, x.bt, |k| - 3)) && k[|k| - 3] == Fold(x.cond)
    ensures k[|k| - 2] == List([Atom("then")] + FoldSeq(x.thn)) && k[|k| - 1] == List([Atom("else")] + FoldSeq(x.els))
  {
    hide A.ReadHeader, FoldSeq, NameText, ResultForm;
    var rest := [Fold(x.cond), List([Atom("then")] + FoldSeq(x.thn)), List([Atom("else")] + FoldSeq(x.els))];
    FoldHead(x.cond);
    assert k == [Atom("if")] + NameText(x.name) + ResultForm(x.bt) + rest;
    HeaderOf(k, Atom("if"), x.name, x.bt, rest);
    var i := |k| - 3;
    assert k[i] == k[i..][0] && k[i + 1] == k[i..][1] && k[i + 2] == k[i..][2];
  }

  lemma IfCoded(bt: byte, c: Option<seq<Ins>>, t: Option<seq<Ins>>, e: Option<seq<Ins>>)
    ensures A.Join(Coded(c), A.Join(Some([OP_IF, bt]), A.Join(Coded(t), A.Join(A.Join(Some([OP_ELSE]), Coded(e)), Some([OP_END])))))
         == Coded(if t.Some? && e.Some? then Source.Join(c, Some([Ins.If(bt, t.value, e.value)])) else None)
  {
    hide Enc, EncSeq;
    if c.Some? && t.Some? && e.Some? {
      EncSnoc(c.value, Ins.If(bt, t.value, e.value));
      IfBytes(bt, t.value, e.value);
    }
  }

  /** Operands. */
  lemma {:induction false} ArgsEmit(a: A.Names, labels: A.Labels, k: seq<Sx>, lo: nat, hi: nat, xs: seq<Ast>)
    requires SeqOk(xs) && lo <= hi <= |k| && k[lo..hi] == FoldSeq(xs)
    ensures A.EmitArgs(a, labels, k, lo, hi) == Coded(LowerSeq(a, labels, xs, true))
    decreases xs, 0
  {
    hide A.EmitFolded, Lower, Fold;
    if xs != [] {
      assert k[lo] == k[lo..hi][0] && k[lo + 1..hi] == k[lo..hi][1..];
      FoldedEmits(a, labels, xs[0]);
      ArgsEmit(a, labels, k, lo + 1, hi, xs[1..]);
      JoinCoded(Lower(a, labels, xs[0], true), LowerSeq(a, labels, xs[1..], true));
    }
  }

  lemma {:induction false} FoldPrefix(xs: seq<Ast>, t: nat)
    requires SeqOk(xs) && t <= |xs|
    ensures SeqOk(xs[..t]) && FoldSeq(xs[..t]) == FoldSeq(xs)[..t]
    decreases t
  {
    hide Fold;
    PrefixOk(xs, t);
    if t > 0 {
      FoldPrefix(xs[1..], t - 1);
      assert xs[..t][1..] == xs[1..][..t - 1];
    }
  }

  /** The operands taken are the first ones of the list's rest. */
  lemma {:induction false} TakenTail(op: Op, args: seq<Ast>, k: seq<Sx>, lo: nat)
    requires SeqOk(args) && Takes(op, |args|).Some? && Tail(k, lo, FoldSeq(args))
    ensures var t := Takes(op, |args|).value;
      t <= |args| && lo + t <= |k| && SeqOk(Taken(op, args)) && k[lo..lo + t] == FoldSeq(Taken(op, args))
  {
    TakesSome(op, |args|);
    TakenOk(op, args);
    hide *;
    var t := Takes(op, |args|).value;
    FoldPrefix(args, t);
    TakenIs(op, args);
    TailTake(k, lo, FoldSeq(args), t);
  }

  lemma TakenIs(op: Op, args: seq<Ast>)
    requires Takes(op, |args|).Some?
    ensures Takes(op, |args|).value <= |args| && Taken(op, args) == args[..Takes(op, |args|).value]
  {
    TakesSome(op, |args|);
    assert args[..|args|] == args;
  }

  lemma TailTake(k: seq<Sx>, lo: nat, rest: seq<Sx>, t: nat)
    requires Tail(k, lo, rest) && t <= |rest|
    ensures lo + t <= |k| && k[lo..lo + t] == rest[..t]
  {
    assert k[lo..lo + t] == k[lo..][..t];
  }

  lemma TakesSome(op: Op, n: nat)
    ensures Takes(op, n).Some? ==> Takes(op, n).value <= n
  {
  }

  /** Bodies: the whole rest of a list. */
  lemma {:induction false} SeqEmits(a: A.Names, labels: A.Labels, e: seq<Sx>, n: nat, i: nat, xs: seq<Ast>)
    requires SeqOk(xs) && n == |e| && Tail(e, i, FoldSeq(xs))
    ensures A.WholeBody(A.EmitSeq(a, labels, e, n, i)) == Coded(LowerSeq(a, labels, xs, true))
    decreases xs, 0
  {
    hide A.EmitFolded, Lower, Fold, A.EmitFlatLeaf;
    if xs != [] {
      assert e[i] == e[i..][0] && e[i + 1..] == e[i..][1..];
      FoldedEmits(a, labels, xs[0]);
      SeqEmits(a, labels, e, n, i + 1, xs[1..]);
      JoinCoded(Lower(a, labels, xs[0], true), LowerSeq(a, labels, xs[1..], true));
    }
  }

  // ----- flat instructions -----

  /** Flat code has no result types. */
  predicate AllVoid(x: Ast)
    decreases x
  {
    match x
    case Node(_, args) => AllVoidSeq(args)
    case Block(_, _, bt, body) => bt == TYPE_VOID && AllVoidSeq(body)
    case If(_, bt, cond, thn, els) => bt == TYPE_VOID && AllVoid(cond) && AllVoidSeq(thn) && AllVoidSeq(els)
  }

  predicate AllVoidSeq(xs: seq<Ast>)
    decreases xs
  {
    xs == [] || (AllVoid(xs[0]) && AllVoidSeq(xs[1..]))
  }

  /** The elements part lie in e from i on, before n. */
  ghost predicate Lies(e: seq<Sx>, n: nat, i: nat, part: seq<Sx>)
  {
    i + |part| <= n <= |e| && e[i..i + |part|] == part
  }

  lemma LiesConcat(e: seq<Sx>, n: nat, i: nat, a: seq<Sx>, b: seq<Sx>)
    requires Lies(e, n, i, a + b)
    ensures Lies(e, n, i, a) && Lies(e, n, i + |a|, b)
  {
    assert e[i..i + |a|] == e[i..i + |a + b|][..|a|];
    assert e[i + |a|..i + |a + b|] == e[i..i + |a + b|][|a|..];
  }

  lemma LiesFirst(e: seq<Sx>, n: nat, i: nat, part: seq<Sx>)
    requires Lies(e, n, i, part) && part != []
    ensures i < n <= |e| && e[i] == part[0]
  {
  }

  /** r: the code of o, then what emitting on from its end gives. */
  ghost predicate Continues(r: A.SeqRes, o: Option<seq<Ins>>, rest: A.SeqRes)
  {
    match o case Some(ins) => r == A.Then(EncSeq(ins), rest) case None => r.status == A.RErr
  }

  lemma ContinuesJoin(r: A.SeqRes, o: Option<seq<Ins>>, mid: A.SeqRes, o': Option<seq<Ins>>, rest: A.SeqRes)
    requires Continues(r, o, mid) && Continues(mid, o', rest)
    ensures Continues(r, Source.Join(o, o'), rest)
  {
    if o.Some? && o'.Some? { EncSeqConcat(o.value, o'.value); }
  }

  /** What emit_seq makes of one instruction. */
  ghost predicate FlatIs(a: A.Names, labels: A.Labels, e: seq<Sx>, n: nat, i: nat, op: Op)
    requires OpOk(op) && i < n <= |e| && e[i].Atom?
  {
    A.EmitFlatLeaf(a, labels, e, n, i)
    == match LeafOf(a, labels, op)
       case Some(l) => Some(A.FlatLeaf(EncLeaf(l), i + 1 + |Source.Immediates(op)|))
       case None => None
  }

  /** The mnemonic of op at i and, unless it has none, its immediate at i + 1. */
  ghost predicate FlatAt(e: seq<Sx>, n: nat, i: nat, op: Op)
  {
    var k := |Source.Immediates(op)|;
    && OpOk(op) && i + k < n <= |e| && e[i] == Atom(Mnemonic(op))
    && (k >= 1 ==> e[i + 1] == Source.Immediates(op)[0])
    && (forall j :: 0 <= j < k ==> e[i + 1 + j] == Source.Immediates(op)[j])
    && Starts(e, n, i + 1 + k)
  }

  lemma FlatBare(a: A.Names, labels: A.Labels, e: seq<Sx>, n: nat, i: nat, op: Op)
    requires FlatAt(e, n, i, op) && (op.Numeric? || op.Return? || op.Select? || op.Drop?)
    ensures FlatIs(a, labels, e, n, i, op)
  {
    hide Mnemonic, A.LookupOpcode, A.EmitConst, A.EmitIndexed, A.ReadMemArg, A.IndirectBytes, EncPlain;
    LookupMnemonic(op);
    Dispatch(Mnemonic(op), OpByte(op));
    if op.Numeric? { BareBytes(op.p); } else { ParametricBytes(); }
  }

  lemma FlatMemory(a: A.Names, labels: A.Labels, e: seq<Sx>, n: nat, i: nat, op: Op)
    requires FlatAt(e, n, i, op) && (op.MemSize? || op.MemGrow?)
    ensures FlatIs(a, labels, e, n, i, op)
  {
    hide A.LookupOpcode;
    LookupMnemonic(op);
    Dispatch(Mnemonic(op), OpByte(op));
    ParametricBytes();
  }

  lemma FlatConst(a: A.Names, labels: A.Labels, e: seq<Sx>, n: nat, i: nat, op: Op)
    requires FlatAt(e, n, i, op) && op.Const?
    ensures FlatIs(a, labels, e, n, i, op)
  {
    hide Mnemonic, A.LookupOpcode, A.EmitConst;
    ConstText(op.w, op.text);
  }

  lemma FlatIndex(a: A.Names, labels: A.Labels, e: seq<Sx>, n: nat, i: nat, op: Op)
    requires FlatAt(e, n, i, op) && op.Index?
    ensures FlatIs(a, labels, e, n, i, op)
  {
    hide A.LookupOpcode, A.EmitIndexed, IndexLeaf, ResolveIndex;
    LookupMnemonic(op);
    Dispatch(Mnemonic(op), OpByte(op));
    IndexedBytes(a, labels, op.k, op.r);
  }

  lemma FlatIndirect(a: A.Names, labels: A.Labels, e: seq<Sx>, n: nat, i: nat, op: Op)
    requires FlatAt(e, n, i, op) && op.Indirect?
    ensures FlatIs(a, labels, e, n, i, op)
  {
    hide A.LookupOpcode, A.ResolveName, RefText, LebU;
    LookupMnemonic(op);
    Dispatch(Mnemonic(op), OpByte(op));
  }

  lemma FlatAccess(a: A.Names, labels: A.Labels, e: seq<Sx>, n: nat, i: nat, op: Op)
    requires FlatAt(e, n, i, op) && (op.Load? || op.Store?)
    ensures FlatIs(a, labels, e, n, i, op)
  {
    hide A.EmitFlatLeaf, LoadCode, StoreCode, A.ReadMemArg, LebU, Mnemonic, MemAtoms, OpByte, Encodable;
    LookupMnemonic(op);
    AccessBytes(op);
    FlatAccessRead(a, labels, e, n, i, OpByte(op));
    MemArgOf(e, n, i + 1, op.mem);
  }

  lemma FlatAccessRead(a: A.Names, labels: A.Labels, e: seq<Sx>, n: nat, i: nat, b: byte)
    requires i < n <= |e| && e[i].Atom? && A.LookupOpcode(e[i].text) == Some(b) && 0x28 <= b <= 0x3E
    ensures var arg := A.ReadMemArg(e, n, i + 1, 0);
      A.EmitFlatLeaf(a, labels, e, n, i) == Some(A.FlatLeaf([b] + LebU(0) + LebU(arg.offset), arg.next))
  {
    hide A.LookupOpcode, A.ReadMemArg, LebU;
    Dispatch(e[i].text, b);
  }

  /** A leaf instruction and its immediates. */
  lemma FlatLeafIs(a: A.Names, labels: A.Labels, e: seq<Sx>, n: nat, i: nat, op: Op)
    requires FlatAt(e, n, i, op)
    ensures FlatIs(a, labels, e, n, i, op)
  {
    hide FlatIs, FlatAt;
    match op
    case Numeric(_) | Return | Select | Drop => FlatBare(a, labels, e, n, i, op);
    case MemSize | MemGrow => FlatMemory(a, labels, e, n, i, op);
    case Const(_, _) => FlatConst(a, labels, e, n, i, op);
    case Index(_, _) => FlatIndex(a, labels, e, n, i, op);
    case Indirect(_) => FlatIndirect(a, labels, e, n, i, op);
    case Load(_, _, _, _) | Store(_, _, _) => FlatAccess(a, labels, e, n, i, op);
  }

  lemma FlatLies(e: seq<Sx>, n: nat, i: nat, op: Op)
    requires OpOk(op) && Lies(e, n, i, [Atom(Mnemonic(op))] + Source.Immediates(op))
      && Starts(e, n, i + 1 + |Source.Immediates(op)|)
    ensures FlatAt(e, n, i, op)
  {
    hide Mnemonic, Source.Immediates, OpOk;
    var part := [Atom(Mnemonic(op))] + Source.Immediates(op);
    assert e[i] == e[i..i + |part|][0];
    forall j | 0 <= j < |Source.Immediates(op)| ensures e[i + 1 + j] == Source.Immediates(op)[j] {
      assert e[i + 1 + j] == e[i..i + |part|][1 + j];
    }
    if |Source.Immediates(op)| >= 1 { assert e[i + 1 + 0] == Source.Immediates(op)[0]; }
  }

  /** A leaf instruction where emit_seq meets it. */
  lemma LeafContinues(a: A.Names, labels: A.Labels, e: seq<Sx>, n: nat, i: nat, op: Op)
    requires OpOk(op) && Lies(e, n, i, [Atom(Mnemonic(op))] + Source.Immediates(op))
      && Starts(e, n, i + 1 + |Source.Immediates(op)|)
    ensures n <= |e|
    ensures Continues(A.EmitSeq(a, labels, e, n, i), match LeafOf(a, labels, op) case Some(l) => Some([L(l)]) case None => None,
                      A.EmitSeq(a, labels, e, n, i + 1 + |Source.Immediates(op)|))
  {
    hide A.EmitFlatLeaf, Mnemonic, LeafOf, A.LookupOpcode, A.EmitFolded, Source.Immediates, OpOk, OpByte, EncLeaf;
    FlatLies(e, n, i, op);
    FlatLeafIs(a, labels, e, n, i, op);
    LookupMnemonic(op);
    Dispatch(Mnemonic(op), OpByte(op));
    OpNotConstruct(op);
    if LeafOf(a, labels, op).Some? { EncOne(L(LeafOf(a, labels, op).value)); }
  }

  /** Flat code starts with a mnemonic. */
  lemma {:induction false} FlatStarts(x: Ast)
    requires AstOk(x)
    ensures Flat(x) != [] && Starter(Flat(x)[0])
    decreases x, 1
  {
    hide Mnemonic, A.LookupOpcode;
    match x
    case Node(op, args) =>
      LookupMnemonic(op);
      MnemonicStart(Mnemonic(op));
      FlatSeqStarts(args);
    case Block(_, _, _, _) =>
    case If(_, _, cond, _, _) => FlatStarts(cond);
  }

  lemma {:induction false} FlatSeqStarts(xs: seq<Ast>)
    requires SeqOk(xs)
    ensures FlatSeq(xs) != [] ==> Starter(FlatSeq(xs)[0])
    decreases xs, 0
  {
    hide Flat;
    if xs != [] { FlatStarts(xs[0]); }
  }

  lemma StartsAfter(e: seq<Sx>, n: nat, i: nat, xs: seq<Ast>)
    requires SeqOk(xs) && Lies(e, n, i, FlatSeq(xs)) && Starts(e, n, i + |FlatSeq(xs)|)
    ensures Starts(e, n, i)
  {
    hide FlatSeq, Starter;
    FlatSeqStarts(xs);
    if FlatSeq(xs) != [] { LiesFirst(e, n, i, FlatSeq(xs)); }
  }

  /** A flat sequence emits its resolved code, its conditions resolved outside their ifs, and goes on after it. */
  lemma {:induction false} FlatSeqEmits(a: A.Names, labels: A.Labels, e: seq<Sx>, n: nat, i: nat, xs: seq<Ast>)
    requires SeqOk(xs) && AllVoidSeq(xs) && Lies(e, n, i, FlatSeq(xs)) && Starts(e, n, i + |FlatSeq(xs)|)
    ensures Continues(A.EmitSeq(a, labels, e, n, i), LowerSeq(a, labels, xs, false), A.EmitSeq(a, labels, e, n, i + |FlatSeq(xs)|))
    decreases xs, 0
  {
    hide A.EmitSeq, Flat, Lower, Lies, Starts;
    if xs != [] {
      LiesConcat(e, n, i, Flat(xs[0]), FlatSeq(xs[1..]));
      var mid := i + |Flat(xs[0])|;
      StartsAfter(e, n, mid, xs[1..]);
      FlatEmits(a, labels, e, n, i, xs[0]);
      FlatSeqEmits(a, labels, e, n, mid, xs[1..]);
      ContinuesJoin(A.EmitSeq(a, labels, e, n, i), Lower(a, labels, xs[0], false), A.EmitSeq(a, labels, e, n, mid),
                    LowerSeq(a, labels, xs[1..], false), A.EmitSeq(a, labels, e, n, i + |FlatSeq(xs)|));
    }
  }

  lemma {:induction false} FlatEmits(a: A.Names, labels: A.Labels, e: seq<Sx>, n: nat, i: nat, x: Ast)
    requires AstOk(x) && AllVoid(x) && Lies(e, n, i, Flat(x)) && Starts(e, n, i + |Flat(x)|)
    ensures Continues(A.EmitSeq(a, labels, e, n, i), Lower(a, labels, x, false), A.EmitSeq(a, labels, e, n, i + |Flat(x)|))
    decreases x, 1
  {
    hide A.EmitSeq, Lies, Starts, FlatSeq, LeafOf, Mnemonic, LowerSeq, Continues;
    match x
    case Node(op, args) =>
      var leaf := [Atom(Mnemonic(op))] + Source.Immediates(op);
      LiesConcat(e, n, i, FlatSeq(args), leaf);
      var mid := i + |FlatSeq(args)|;
      StartsWithAtom(e, n, mid, op, leaf);
      FlatSeqEmits(a, labels, e, n, i, args);
      LeafContinues(a, labels, e, n, mid, op);
      ContinuesJoin(A.EmitSeq(a, labels, e, n, i), LowerSeq(a, labels, args, false), A.EmitSeq(a, labels, e, n, mid),
                    match LeafOf(a, labels, op) case Some(l) => Some([L(l)]) case None => None,
                    A.EmitSeq(a, labels, e, n, mid + |leaf|));
    case Block(_, _, _, _) => FlatBlock(a, labels, e, n, i, x);
    case If(_, _, _, _, _) => FlatIf(a, labels, e, n, i, x);
  }

  lemma StartsWithAtom(e: seq<Sx>, n: nat, i: nat, op: Op, part: seq<Sx>)
    requires OpOk(op) && Lies(e, n, i, part) && part == [Atom(Mnemonic(op))] + Source.Immediates(op)
    ensures Starts(e, n, i)
  {
    hide Mnemonic, A.LookupOpcode;
    LiesFirst(e, n, i, part);
    LookupMnemonic(op);
    MnemonicStart(Mnemonic(op));
  }

  /** The head of a flat construct at i: its word and its name; its body starts at position at. */
  ghost predicate Head(e: seq<Sx>, n: nat, i: nat, word: string, name: Option<string>, at: nat)
  {
    && i < at <= n <= |e| && e[i] == Atom(word) && at == i + 1 + |NameText(name)|
    && ((i + 1 < n && A.IsName(e[i + 1])) <==> name.Some?)
    && (name.Some? ==> e[i + 1].text[1..] == name.value)
  }

  /** A flat body at position at, and the word that closes it. */
  ghost predicate Body(e: seq<Sx>, n: nat, at: nat, xs: seq<Ast>, closer: string)
  {
    && SeqOk(xs) && Lies(e, n, at, FlatSeq(xs)) && at + |FlatSeq(xs)| < n && e[at + |FlatSeq(xs)|] == Atom(closer)
    && (closer == "end" || closer == "else")
  }

  lemma HeadLies(e: seq<Sx>, n: nat, i: nat, word: string, name: Option<string>, rest: seq<Sx>)
    requires Lies(e, n, i, [Atom(word)] + (NameText(name) + rest)) && rest != [] && Starter(rest[0])
    ensures Head(e, n, i, word, name, i + 1 + |NameText(name)|)
    ensures Lies(e, n, i + 1 + |NameText(name)|, rest)
  {
    hide Lies;
    LiesConcat(e, n, i, [Atom(word)], NameText(name) + rest);
    LiesFirst(e, n, i, [Atom(word)]);
    LiesConcat(e, n, i + 1, NameText(name), rest);
    LiesFirst(e, n, i + 1 + |NameText(name)|, rest);
    if name.Some? {
      LiesFirst(e, n, i + 1, NameText(name));
      assert ("$" + name.value)[1..] == name.value;
    }
  }

  lemma BodyLies(e: seq<Sx>, n: nat, at: nat, xs: seq<Ast>, closer: string, rest: seq<Sx>)
    requires SeqOk(xs) && (closer == "end" || closer == "else") && Lies(e, n, at, FlatSeq(xs) + ([Atom(closer)] + rest))
    ensures Body(e, n, at, xs, closer)
    ensures Lies(e, n, at + |FlatSeq(xs)| + 1, rest)
  {
    hide Lies, FlatSeq;
    var body := FlatSeq(xs);
    LiesConcat(e, n, at, body, [Atom(closer)] + rest);
    LiesConcat(e, n, at + |body|, [Atom(closer)], rest);
    LiesFirst(e, n, at + |body|, [Atom(closer)]);
  }

  /** A body emits its code and stops after the word that closes it. */
  ghost predicate Closes(r: A.SeqRes, o: Option<seq<Ins>>, closer: string, next: nat)
  {
    match o
    case Some(ins) => r == A.SeqRes(EncSeq(ins), if closer == "end" then A.REnd else A.RElse, next)
    case None => r.status == A.RErr
  }

  lemma {:induction false} BodyEmits(a: A.Names, labels: A.Labels, e: seq<Sx>, n: nat, at: nat, xs: seq<Ast>,
      closer: string)
    requires Body(e, n, at, xs, closer) && AllVoidSeq(xs)
    ensures n <= |e|
    ensures Closes(A.EmitSeq(a, labels, e, n, at), LowerSeq(a, labels, xs, false), closer, at + |FlatSeq(xs)| + 1)
    decreases xs, 1
  {
    hide A.EmitSeq, FlatSeq, LowerSeq;
    FlatSeqEmits(a, labels, e, n, at, xs);
    EmitEnd(a, labels, e, n, at + |FlatSeq(xs)|);
  }

  lemma EmitEnd(a: A.Names, labels: A.Labels, e: seq<Sx>, n: nat, i: nat)
    requires i < n <= |e|
    ensures e[i] == Atom("end") ==> A.EmitSeq(a, labels, e, n, i) == A.SeqRes([], A.REnd, i + 1)
    ensures e[i] == Atom("else") ==> A.EmitSeq(a, labels, e, n, i) == A.SeqRes([], A.RElse, i + 1)
  {
  }

  /** emit_seq at a construct goes into its body with its label on the stack, and on after it. */
  lemma ConstructContinues(a: A.Names, labels: A.Labels, e: seq<Sx>, n: nat, i: nat, word: string,
      name: Option<string>, at: nat,
      o: Option<seq<Ins>>, next: nat)
    requires Head(e, n, i, word, name, at) && (A.IsBlock(word) || word == "if") && word != "end" && word != "else"
    requires A.EmitFlatConstruct(a, labels + [name], e, n, at, word)
          == match o case Some(ins) => Some(A.FlatLeaf(EncSeq(ins), next)) case None => None
    ensures Continues(A.EmitSeq(a, labels, e, n, i), o, if o.Some? then A.EmitSeq(a, labels, e, n, next) else A.Err(0))
  {
    hide A.EmitFolded, A.EmitFlatLeaf, A.EmitFlatConstruct, A.IsBlock, EncSeq;
  }

  lemma EmitFlatBlock(a: A.Names, labels: A.Labels, e: seq<Sx>, n: nat, i: nat, loop: bool, name: Option<string>,
      at: nat,
      o: Option<seq<Ins>>, next: nat)
    requires Head(e, n, i, BlockName(loop), name, at) && Closes(A.EmitSeq(a, labels + [name], e, n, at), o, "end", next)
    ensures Continues(A.EmitSeq(a, labels, e, n, i), match o case Some(ins) => Some([Ins.Block(loop, TYPE_VOID, ins)]) case None => None,
                      if o.Some? then A.EmitSeq(a, labels, e, n, next) else A.Err(0))
  {
    hide A.EmitSeq, A.BlockOpcode, A.IsBlock, BlockName, EncSeq, Enc;
    BlockWord(loop);
    if o.Some? {
      EncOne(Ins.Block(loop, TYPE_VOID, o.value));
      BlockBytes(loop, TYPE_VOID, o.value);
      assert [BlockOp(loop), TYPE_VOID] + EncSeq(o.value) + [OP_END]
        == [BlockOp(loop), TYPE_VOID] + (EncSeq(o.value) + [OP_END]);
    }
    ConstructContinues(a, labels, e, n, i, BlockName(loop), name, at,
                       match o case Some(ins) => Some([Ins.Block(loop, TYPE_VOID, ins)]) case None => None, next);
  }

  lemma BlockWord(loop: bool)
    ensures A.IsBlock(BlockName(loop)) && A.BlockOpcode(BlockName(loop)) == BlockOp(loop)
    ensures BlockName(loop) != "end" && BlockName(loop) != "else" && BlockName(loop) != "if"
  {
  }

  lemma EmitFlatIf(a: A.Names, labels: A.Labels, e: seq<Sx>, n: nat, i: nat, name: Option<string>, at: nat,
      t: Option<seq<Ins>>, mid: nat, f: Option<seq<Ins>>, next: nat)
    requires Head(e, n, i, "if", name, at) && Closes(A.EmitSeq(a, labels + [name], e, n, at), t, "else", mid)
    requires t.Some? ==> Closes(A.EmitSeq(a, labels + [name], e, n, mid), f, "end", next)
    ensures Continues(A.EmitSeq(a, labels, e, n, i),
                      if t.Some? && f.Some? then Some([Ins.If(TYPE_VOID, t.value, f.value)]) else None,
                      if t.Some? && f.Some? then A.EmitSeq(a, labels, e, n, next) else A.Err(0))
  {
    hide A.EmitSeq, EncSeq, Enc;
    if t.Some? && f.Some? {
      EncOne(Ins.If(TYPE_VOID, t.value, f.value));
      IfBytes(TYPE_VOID, t.value, f.value);
      assert [OP_IF, TYPE_VOID] + EncSeq(t.value) + [OP_ELSE] + EncSeq(f.value) + [OP_END]
          == [OP_IF, TYPE_VOID] + (EncSeq(t.value) + (([OP_ELSE] + EncSeq(f.value)) + [OP_END]));
    }
    ConstructContinues(a, labels, e, n, i, "if", name, at,
                       if t.Some? && f.Some? then Some([Ins.If(TYPE_VOID, t.value, f.value)]) else None, next);
  }

  lemma {:induction false} FlatBlock(a: A.Names, labels: A.Labels, e: seq<Sx>, n: nat, i: nat, x: Ast)
    requires AstOk(x) && AllVoid(x) && x.Block? && Lies(e, n, i, Flat(x))
    ensures n <= |e|
    ensures Continues(A.EmitSeq(a, labels, e, n, i), Lower(a, labels, x, false), A.EmitSeq(a, labels, e, n, i + |Flat(x)|))
    decreases x, 0
  {
    hide A.EmitSeq, Lies, FlatSeq, LowerSeq, NameText, Head, Body, Closes, Starter;
    var at := BlockLies(e, n, i, x);
    BodyEmits(a, labels + [x.name], e, n, at, x.body, "end");
    EmitFlatBlock(a, labels, e, n, i, x.loop, x.name, at, LowerSeq(a, labels + [x.name], x.body, false), i + |Flat(x)|);
  }

  lemma StarterOf(part: seq<Sx>, closer: string, rest: seq<Sx>)
    requires part != [] ==> Starter(part[0])
    requires closer == "end" || closer == "else"
    ensures Starter((part + ([Atom(closer)] + rest))[0])
  {
  }

  lemma BlockLies(e: seq<Sx>, n: nat, i: nat, x: Ast) returns (at: nat)
    requires AstOk(x) && x.Block? && Lies(e, n, i, Flat(x))
    ensures Head(e, n, i, BlockName(x.loop), x.name, at) && Body(e, n, at, x.body, "end")
    ensures n <= |e| && i + |Flat(x)| == at + |FlatSeq(x.body)| + 1
  {
    hide Lies, FlatSeq, NameText, Head, Body, Starter;
    LiesInside(e, n, i, Flat(x));
    at := i + 1 + |NameText(x.name)|;
    var rest := FlatSeq(x.body) + ([Atom("end")] + []);
    assert Flat(x) == [Atom(BlockName(x.loop))] + (NameText(x.name) + rest);
    FlatSeqStarts(x.body);
    StarterOf(FlatSeq(x.body), "end", []);
    HeadLies(e, n, i, BlockName(x.loop), x.name, rest);
    BodyLies(e, n, at, x.body, "end", []);
  }

  lemma LiesInside(e: seq<Sx>, n: nat, i: nat, part: seq<Sx>)
    requires Lies(e, n, i, part)
    ensures i + |part| <= n <= |e|
  {
  }

  lemma {:induction false} FlatIf(a: A.Names, labels: A.Labels, e: seq<Sx>, n: nat, i: nat, x: Ast)
    requires AstOk(x) && AllVoid(x) && x.If? && Lies(e, n, i, Flat(x))
    ensures n <= |e|
    ensures Continues(A.EmitSeq(a, labels, e, n, i), Lower(a, labels, x, false), A.EmitSeq(a, labels, e, n, i + |Flat(x)|))
    decreases x, 0
  {
    hide A.EmitSeq, Lies, FlatSeq, LowerSeq, NameText, Head, Body, Closes, Starter, Starts;
    var mid, at := IfLies(e, n, i, x);
    FlatEmits(a, labels, e, n, i, x.cond);
    var inner := labels + [x.name];
    BodyEmits(a, inner, e, n, at, x.thn, "else");
    BodyEmits(a, inner, e, n, at + |FlatSeq(x.thn)| + 1, x.els, "end");
    var t, f := LowerSeq(a, inner, x.thn, false), LowerSeq(a, inner, x.els, false);
    EmitFlatIf(a, labels, e, n, mid, x.name, at, t, at + |FlatSeq(x.thn)| + 1, f, i + |Flat(x)|);
    IfContinues(A.EmitSeq(a, labels, e, n, i), Lower(a, labels, x.cond, false), A.EmitSeq(a, labels, e, n, mid), t, f,
                A.EmitSeq(a, labels, e, n, i + |Flat(x)|));
  }

  lemma IfContinues(r: A.SeqRes, c: Option<seq<Ins>>, mid: A.SeqRes, t: Option<seq<Ins>>, f: Option<seq<Ins>>,
      rest: A.SeqRes)
    requires Continues(r, c, mid)
    requires Continues(mid, if t.Some? && f.Some? then Some([Ins.If(TYPE_VOID, t.value, f.value)]) else None,
                       if t.Some? && f.Some? then rest else A.Err(0))
    ensures Continues(r, if t.Some? && f.Some? then Source.Join(c, Some([Ins.If(TYPE_VOID, t.value, f.value)])) else None, rest)
  {
    if t.Some? && f.Some? { ContinuesJoin(r, c, mid, Some([Ins.If(TYPE_VOID, t.value, f.value)]), rest); }
  }

  lemma IfLies(e: seq<Sx>, n: nat, i: nat, x: Ast) returns (mid: nat, at: nat)
    requires AstOk(x) && x.If? && Lies(e, n, i, Flat(x))
    ensures n <= |e| && mid == i + |Flat(x.cond)| && Lies(e, n, i, Flat(x.cond)) && Starts(e, n, mid)
    ensures Head(e, n, mid, "if", x.name, at) && Body(e, n, at, x.thn, "else")
    ensures Body(e, n, at + |FlatSeq(x.thn)| + 1, x.els, "end")
    ensures i + |Flat(x)| == at + |FlatSeq(x.thn)| + 1 + |FlatSeq(x.els)| + 1
  {
    hide Lies, FlatSeq, NameText, Body, Starter, Starts, Head;
    LiesInside(e, n, i, Flat(x));
    var r1 := FlatSeq(x.els) + ([Atom("end")] + []);
    var r2 := FlatSeq(x.thn) + ([Atom("else")] + r1);
    var tail := [Atom("if")] + (NameText(x.name) + r2);
    Nest(NameText(x.name), FlatSeq(x.thn), FlatSeq(x.els));
    LiesConcat(e, n, i, Flat(x.cond), tail);
    mid := i + |Flat(x.cond)|;
    at := mid + 1 + |NameText(x.name)|;
    FlatSeqStarts(x.thn);
    StarterOf(FlatSeq(x.thn), "else", r1);
    HeadLies(e, n, mid, "if", x.name, r2);
    StartsIf(e, n, mid, x.name, at);
    BodyLies(e, n, at, x.thn, "else", r1);
    BodyLies(e, n, at + |FlatSeq(x.thn)| + 1, x.els, "end", []);
  }

  lemma Nest(name: seq<Sx>, thn: seq<Sx>, els: seq<Sx>)
    ensures [Atom("if")] + name + thn + [Atom("else")] + els + [Atom("end")]
         == [Atom("if")] + (name + (thn + ([Atom("else")] + (els + ([Atom("end")] + [])))))
  {
  }

  lemma StartsIf(e: seq<Sx>, n: nat, i: nat, name: Option<string>, at: nat)
    requires Head(e, n, i, "if", name, at)
    ensures n <= |e| && Starts(e, n, i)
  {
  }
}
