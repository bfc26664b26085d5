/** The assembler on forms that the programs of the theorems are not written in: short forms, and forms it refuses. */
module Forms {
  import opened Bytes
  import opened Leb
  import opened Isa
  import opened Sexpr
  import opened Numerals
  import opened Assembler

  // ----- memory arguments -----

  predicate OffsetAtom(x: Sx) { x.Atom? && |x.text| >= 7 && x.text[..7] == "offset=" }

  predicate AlignAtom(x: Sx) { x.Atom? && |x.text| >= 6 && x.text[..6] == "align=" }

  /** The offset of the last atom among e[i..j] that gives one in a form that is a number. */
  function LastOffset(e: seq<Sx>, i: nat, j: nat): Option<u32>
    requires j <= |e|
    decreases j
  {
    if i >= j then None
    else if OffsetAtom(e[j - 1]) && IntLit(e[j - 1].text[7..]).Some? then Some(Wrap32(IntLit(e[j - 1].text[7..]).value))
    else LastOffset(e, i, j - 1)
  }

  /** All offset= and align= atoms are read, in any order and number; the last offset counts, and none means 0. */
  lemma {:induction false} MemArgIs(e: seq<Sx>, n: nat, i: nat, j: nat, o: u32)
    requires i <= j <= n <= |e| && (forall k :: i <= k < j ==> OffsetAtom(e[k]) || AlignAtom(e[k]))
    requires j < n ==> !OffsetAtom(e[j]) && !AlignAtom(e[j])
    ensures ReadMemArg(e, n, i, o) == MemArg(match LastOffset(e, i, j) case Some(v) => v case None => o, j)
    decreases j - i
  {
    hide IntLit;
    if i < j {
      var next := if OffsetAtom(e[i]) && IntLit(e[i].text[7..]).Some? then Wrap32(IntLit(e[i].text[7..]).value) else o;
      NotBothAtoms(e[i]);
      MemArgIs(e, n, i + 1, j, next);
      FirstOffset(e, i, j);
    }
  }

  lemma NotBothAtoms(x: Sx)
    ensures OffsetAtom(x) ==> !AlignAtom(x)
  {
    if OffsetAtom(x) {
      assert x.text[0] == x.text[..7][0] == 'o' && x.text[..6][0] == x.text[0];
      assert "align="[0] == 'a';
    }
  }

  lemma {:induction false} FirstOffset(e: seq<Sx>, i: nat, j: nat)
    requires i < j <= |e|
    ensures LastOffset(e, i, j) == match LastOffset(e, i + 1, j)
      case Some(v) => Some(v)
      case None =>
        if OffsetAtom(e[i]) && IntLit(e[i].text[7..]).Some? then Some(Wrap32(IntLit(e[i].text[7..]).value)) else None
    decreases j
  {
    hide IntLit;
    if i < j - 1 { FirstOffset(e, i, j - 1); }
  }

  /** The bytes of an access: the opcode, alignment 0 whatever was written, the offset. */
  lemma AccessBytes(op: byte, k: seq<Sx>, j: nat)
    requires 1 <= j <= |k| && (forall i :: 1 <= i < j ==> OffsetAtom(k[i]) || AlignAtom(k[i]))
    requires j < |k| ==> !OffsetAtom(k[j]) && !AlignAtom(k[j])
    ensures PlanAccess(op, k) == if j + (if op >= 0x36 then 2 else 1) > |k| then None
      else Some(Plan(j, j + (if op >= 0x36 then 2 else 1),
                     [op, 0x00] + LebU(match LastOffset(k, 1, j) case Some(v) => v case None => 0)))
  {
    hide ReadMemArg, LastOffset;
    MemArgIs(k, |k|, 1, j, 0);
    assert LebU(0) == [0x00];
    assert [op] + [0x00] == [op, 0x00];
  }

  // ----- call_indirect -----

  /** call_indirect without a type means type 0, whatever that is, and every element is an operand. */
  lemma IndirectUntyped(a: Names, labels: Labels, ops: seq<Sx>)
    requires ops != [] && !IsForm(ops[0], "type")
    ensures var k := [Atom("call_indirect")] + ops;
      EmitFolded(a, labels, List(k)) == Join(EmitArgs(a, labels, k, 1, |k|), Some([0x11, 0x00, 0x00]))
  {
    hide EmitArgs, LookupOpcode;
    var k := [Atom("call_indirect")] + ops;
    assert k[1] == ops[0];
    ZeroType();
    Words();
    assert PlanOf(a, labels, "call_indirect", k) == PlanIndirect(a, k);
  }

  lemma IndirectFlat(a: Names, labels: Labels, e: seq<Sx>, n: nat, i: nat)
    requires i < n <= |e| && e[i] == Atom("call_indirect") && (i + 1 < n ==> !IsForm(e[i + 1], "type"))
    ensures EmitFlatLeaf(a, labels, e, n, i) == Some(FlatLeaf([0x11, 0x00, 0x00], i + 1))
  {
    hide LookupOpcode;
    ZeroType();
    Words();
  }

  lemma ZeroType()
    ensures IndirectBytes(Some(0)) == Some([0x11, 0x00, 0x00])
  {
    assert LebU(0) == [0x00];
    assert [OP_CALL_INDIRECT] + [0x00] + [0x00] == [0x11, 0x00, 0x00];
  }

  lemma Words()
    ensures var m := "call_indirect";
      !IsConst(m) && !IsLocal(m) && !IsGlobal(m) && !IsBranch(m) && m != "call" && m != "memory.size" && m != "memory.grow"
      && !IsBlock(m) && m != "if" && m != "br_table" && m != "select" && m != "drop"
  {
  }

  // ----- if -----

  predicate Condition(c: Sx) { !IsName(c) && !IsForm(c, "result") }

  /** A folded if without a label or a type: the condition, then the two bytes, then what its arms give. */
  lemma FoldedIf(a: Names, labels: Labels, k: seq<Sx>)
    requires |k| >= 2 && k[0] == Atom("if") && Condition(k[1])
    ensures var inner := labels + [None];
      EmitFolded(a, labels, List(k)) == Join(EmitExpr(a, inner, k[1]), Join(Some([0x04, 0x40]), EmitArms(a, inner, k, 2)))
  {
    hide EmitArms, EmitExpr, PlanOf, EmitSeq;
    assert ReadHeader(k) == Some(Header(None, 0x40, 1));
    assert !IsBlock("if");
    assert EmitFolded(a, labels, List(k)) == EmitIf(a, labels, k);
  }

  /** Without an else there is one arm and no else byte. */
  lemma ThenOnly(a: Names, inner: Labels, k: seq<Sx>, xs: seq<Sx>)
    requires |k| == 3 && k[2] == List([Atom("then")] + xs)
    ensures EmitArms(a, inner, k, 2) == Join(WholeBody(EmitSeq(a, inner, [Atom("then")] + xs, 1 + |xs|, 1)), Some([0x0B]))
  {
    hide EmitSeq;
    assert k[2].kids[0] == Atom("then");
    assert EmitElse(a, inner, k, 3) == Some([]);
    var none: seq<byte> := [];
    assert none + [OP_END] == [0x0B];
  }

  /** Without then and else lists the elements after the condition are the arm, up to the first (else ...), if any. */
  lemma BareArm(a: Names, inner: Labels, k: seq<Sx>, j: nat)
    requires 2 <= j <= |k| && (j > 2 ==> !IsForm(k[2], "then")) && (forall i :: 2 <= i < j ==> !IsForm(k[i], "else"))
    requires j < |k| ==> IsForm(k[j], "else")
    ensures EmitArms(a, inner, k, 2) == Join(WholeBody(EmitSeq(a, inner, k, j, 2)), Join(
      if j < |k| then Join(Some([0x05]), WholeBody(EmitSeq(a, inner, k[j].kids, |k[j].kids|, 1))) else Some([]), Some([0x0B])))
  {
    hide EmitSeq;
    ElseAt(k, 2, j);
    if j == 2 && j < |k| { NotBoth(k[2]); }
  }

  lemma NotBoth(x: Sx)
    ensures IsForm(x, "else") ==> !IsForm(x, "then")
  {
    assert "else"[0] != "then"[0];
  }

  lemma {:induction false} ElseAt(k: seq<Sx>, i: nat, j: nat)
    requires i <= j <= |k| && (forall m :: i <= m < j ==> !IsForm(k[m], "else")) && (j < |k| ==> IsForm(k[j], "else"))
    ensures FindElse(k, i) == j
    decreases j - i
  {
    if i < j { ElseAt(k, i + 1, j); }
  }

  /** A flat if without an else. */
  lemma FlatIfThen(a: Names, inner: Labels, e: seq<Sx>, n: nat, i: nat)
    requires i <= n <= |e|
    ensures var r := EmitSeq(a, inner, e, n, i);
      r.status == REnd ==>
        EmitFlatConstruct(a, inner, e, n, i, "if") == Some(FlatLeaf([0x04, 0x40] + r.code + [0x0B], r.next))
  {
    hide EmitSeq;
  }

  // ----- headers, operands and ends -----

  /** Operands are emitted from the first to the last. */
  lemma {:induction false} ArgsInOrder(a: Names, labels: Labels, k: seq<Sx>, lo: nat, m: nat, hi: nat)
    requires lo <= m <= hi <= |k|
    ensures EmitArgs(a, labels, k, lo, hi) == Join(EmitArgs(a, labels, k, lo, m), EmitArgs(a, labels, k, m, hi))
    ensures m < |k| ==> EmitArgs(a, labels, k, m, m + 1) == EmitExpr(a, labels, k[m])
    decreases m - lo
  {
    hide EmitExpr;
    if lo < m {
      ArgsInOrder(a, labels, k, lo + 1, m, hi);
      JoinThree(EmitExpr(a, labels, k[lo]), EmitArgs(a, labels, k, lo + 1, m), EmitArgs(a, labels, k, m, hi));
    } else {
      JoinNone(EmitArgs(a, labels, k, m, hi));
    }
    if m < |k| { NoneJoin(EmitExpr(a, labels, k[m])); }
  }

  lemma JoinThree(x: Option<seq<byte>>, y: Option<seq<byte>>, z: Option<seq<byte>>)
    ensures Join(Join(x, y), z) == Join(x, Join(y, z))
  {
    if x.Some? && y.Some? && z.Some? { assert x.value + y.value + z.value == x.value + (y.value + z.value); }
  }

  lemma JoinNone(x: Option<seq<byte>>)
    ensures Join(Some([]), x) == x
  {
    if x.Some? { assert [] + x.value == x.value; }
  }

  lemma NoneJoin(x: Option<seq<byte>>)
    ensures Join(x, Some([])) == x
  {
    if x.Some? { assert x.value + [] == x.value; }
  }

  /** So (i32.sub x y) is x, then y, then the subtraction. */
  lemma FoldedSub(a: Names, labels: Labels, x: Sx, y: Sx)
    ensures EmitFolded(a, labels, List([Atom("i32.sub"), x, y]))
      == Join(EmitExpr(a, labels, x), Join(EmitExpr(a, labels, y), Some([0x6B])))
  {
    hide EmitExpr, EmitArgs, LookupOpcode;
    var k := [Atom("i32.sub"), x, y];
    assert LookupOpcode("i32.sub") == Some(0x6B) by { SubOpcode(); }
    assert PlanOf(a, labels, "i32.sub", k) == Some(Plan(1, 3, [0x6B]));
    assert HeadText(List(k)) == Some("i32.sub") && !IsBlock("i32.sub") && "i32.sub" != "if";
    assert EmitFolded(a, labels, List(k)) == Join(EmitArgs(a, labels, k, 1, 3), Some([0x6B]));
    ArgsInOrder(a, labels, k, 1, 1, 3);
    ArgsInOrder(a, labels, k, 1, 2, 3);
    JoinThree(EmitExpr(a, labels, x), EmitExpr(a, labels, y), Some([0x6B]));
  }

  lemma SubOpcode()
    ensures LookupOpcode("i32.sub") == Some(0x6B)
  {
    assert "i32.sub"[4..] == "sub";
  }

  /** (result) with no type in it is skipped; of several types the first counts. */
  lemma ResultForms(kw: Sx, more: seq<Sx>, rest: seq<Sx>)
    ensures ReadHeader([kw, List([Atom("result")])] + rest) == Some(Header(None, 0x40, 2))
    ensures ReadHeader([kw, List([Atom("result"), Atom("i64")] + more)] + rest) == Some(Header(None, 0x7E, 2))
    ensures ReadHeader([kw, List([Atom("result"), Atom("v128")] + more)] + rest) == None
  {
    var r, s := List([Atom("result"), Atom("i64")] + more), List([Atom("result"), Atom("v128")] + more);
    assert r.kids[0] == Atom("result") && r.kids[1] == Atom("i64") && s.kids[0] == Atom("result") && s.kids[1] == Atom("v128");
  }

  /** An operand that is an atom is one instruction without immediates: its opcode alone, or refused. */
  lemma AtomOperand(a: Names, labels: Labels, m: string)
    ensures EmitExpr(a, labels, Atom(m)) == match LookupOpcode(m) case Some(b) => Some([b]) case None => None
  {
  }

  /** end and else end a sequence, and a folded body must not hold them. */
  lemma EndStops(a: Names, labels: Labels, e: seq<Sx>, n: nat, i: nat)
    requires i < n <= |e|
    ensures e[i] == Atom("end") ==> EmitSeq(a, labels, e, n, i) == SeqRes([], REnd, i + 1)
    ensures e[i] == Atom("else") ==> EmitSeq(a, labels, e, n, i) == SeqRes([], RElse, i + 1)
    ensures e[i] == Atom("end") || e[i] == Atom("else") ==> WholeBody(EmitSeq(a, labels, e, n, i)) == None
  {
  }

  /** A body of nothing is no bytes. */
  lemma EmptyBody(a: Names, labels: Labels, e: seq<Sx>, n: nat)
    requires n <= |e|
    ensures WholeBody(EmitSeq(a, labels, e, n, n)) == Some([])
  {
  }

  /** A list without a word at its head is refused. */
  lemma NoHead(a: Names, labels: Labels, x: Sx)
    requires HeadText(x) == None
    ensures EmitFolded(a, labels, x) == None
  {
  }
}
