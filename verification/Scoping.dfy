/** Labels: what a name means, and where the assembler's two forms of an if disagree about it. */
module Scoping {
  import opened Bytes
  import opened Leb
  import opened Isa
  import opened Sexpr
  import opened Numerals
  import opened Source
  import opened Emission
  import A = Assembler

  // ----- the resolver -----

  /** The construct d levels out is the innermost of that name. */
  ghost predicate Nearest(labels: A.Labels, name: string, d: nat)
  {
    && d < |labels| && labels[|labels| - 1 - d] == Some(name)
    && forall e :: |labels| - d <= e < |labels| ==> labels[e] != Some(name)
  }

  /** The depth of a name is the number of constructs between the branch and the innermost one so named. */
  lemma {:induction false} FindLabelIsNearest(labels: A.Labels, name: string)
    ensures match A.FindLabel(labels, name)
            case Some(d) => Nearest(labels, name, d)
            case None => Some(name) !in labels
    decreases |labels|
  {
    if labels != [] && labels[|labels| - 1] != Some(name) {
      FindLabelIsNearest(labels[..|labels| - 1], name);
    }
  }

  /** A name declared in the inner part of the stack means the same under any outer part. */
  lemma {:induction false} FindInner(outer: A.Labels, inner: A.Labels, name: string)
    ensures A.FindLabel(outer + inner, name)
         == if Some(name) in inner then A.FindLabel(inner, name)
            else match A.FindLabel(outer, name) case Some(d) => Some(|inner| + d) case None => None
    decreases |inner|
  {
    if inner == [] {
      assert outer + inner == outer;
    } else {
      var k := |inner| - 1;
      assert (outer + inner)[..|outer + inner| - 1] == outer + inner[..k];
      FindInner(outer, inner[..k], name);
    }
  }

  // ----- code is determined by its bytes -----

  /** Immediates in range and no br_table. */
  predicate Plainly(l: Leaf)
  {
    match l
    case P(p) => Encodable(p) && !p.BrTable?
    case Br(n) => n < 0x7FFF_FFFF
    case BrIf(n) => n < 0x7FFF_FFFF
    case Return => true
    case Call(f) => f < 0x8000_0000
    case CallIndirect(t) => t < 0x8000_0000
  }

  predicate InRangeSeq(ins: seq<Ins>)
    decreases ins
  {
    ins == [] || (InRange(ins[0]) && InRangeSeq(ins[1..]))
  }

  predicate InRange(i: Ins)
    decreases i
  {
    match i
    case L(l) => Plainly(l)
    case Block(_, _, body) => InRangeSeq(body)
    case If(_, thn, els) => InRangeSeq(thn) && InRangeSeq(els)
  }

  /** The opcode of a leaf instruction. */
  function LeafOpcode(l: Leaf): byte
  {
    match l
    case P(p) => Opcode(p)
    case Br(_) => OP_BR
    case BrIf(_) => OP_BR_IF
    case Return => OP_RETURN
    case Call(_) => OP_CALL
    case CallIndirect(_) => OP_CALL_INDIRECT
  }

  lemma LeafStarts(l: Leaf)
    requires Plainly(l)
    ensures EncLeaf(l)[0] == LeafOpcode(l)
    ensures LeafOpcode(l) !in {OP_BLOCK, OP_LOOP, OP_IF, OP_ELSE, OP_END}
    ensures !l.P? ==> Fetch([LeafOpcode(l)], 0) == NotPlain
    ensures l.P? ==> LeafOpcode(l) !in {OP_BR, OP_BR_IF, OP_RETURN, OP_CALL, OP_CALL_INDIRECT}
  {
    if l.P? && (l.p.Load? || l.p.Store?) { AccessOfOpcode(l.p); }
  }

  lemma PlainUnique(p: Plain, q: Plain, u: seq<byte>, v: seq<byte>)
    requires Encodable(p) && !p.BrTable? && Encodable(q) && !q.BrTable? && EncPlain(p) + u == EncPlain(q) + v
    ensures p == q && u == v
  {
    hide EncPlain, Fetch;
    var code := EncPlain(p) + u;
    assert At(code, 0, EncPlain(p)) && At(code, 0, EncPlain(q));
    FetchOfEnc(code, 0, p);
    FetchOfEnc(code, 0, q);
    assert u == code[|EncPlain(p)|..] && v == code[|EncPlain(q)|..];
  }

  lemma LebUnique(m: u32, n: u32, u: seq<byte>, v: seq<byte>)
    requires LebU(m) + u == LebU(n) + v
    ensures m == n && u == v
  {
    hide LebU;
    var code := LebU(m) + u;
    assert At(code, 0, LebU(m)) && At(code, 0, LebU(n));
    LebU32RoundTrip(code, 0, m);
    LebU32RoundTrip(code, 0, n);
    assert u == code[|LebU(m)|..] && v == code[|LebU(n)|..];
  }

  lemma NumberedUnique(op: byte, m: u32, n: u32, u: seq<byte>, v: seq<byte>)
    requires [op] + LebU(m) + u == [op] + LebU(n) + v
    ensures m == n && u == v
  {
    hide LebU;
    assert ([op] + LebU(m) + u)[1..] == LebU(m) + u && ([op] + LebU(n) + v)[1..] == LebU(n) + v;
    LebUnique(m, n, u, v);
  }

  lemma IndirectUnique(m: u32, n: u32, u: seq<byte>, v: seq<byte>)
    requires [OP_CALL_INDIRECT] + LebU(m) + [0x00] + u == [OP_CALL_INDIRECT] + LebU(n) + [0x00] + v
    ensures m == n && u == v
  {
    hide LebU;
    var x, y := [0x00] + u, [0x00] + v;
    assert [OP_CALL_INDIRECT] + LebU(m) + [0x00] + u == [OP_CALL_INDIRECT] + LebU(m) + x;
    assert [OP_CALL_INDIRECT] + LebU(n) + [0x00] + v == [OP_CALL_INDIRECT] + LebU(n) + y;
    NumberedUnique(OP_CALL_INDIRECT, m, n, x, y);
    assert u == x[1..] && v == y[1..];
  }

  lemma LeafUnique(l: Leaf, k: Leaf, u: seq<byte>, v: seq<byte>)
    requires Plainly(l) && Plainly(k) && EncLeaf(l) + u == EncLeaf(k) + v
    ensures l == k && u == v
  {
    hide EncPlain, Encodable, LebU, Opcode;
    LeafStarts(l);
    LeafStarts(k);
    assert LeafOpcode(l) == LeafOpcode(k) by {
      hide EncLeaf, LeafOpcode;
      assert (EncLeaf(l) + u)[0] == EncLeaf(l)[0] && (EncLeaf(k) + v)[0] == EncLeaf(k)[0];
    }
    match l
    case P(p) => PlainUnique(p, k.p, u, v);
    case Br(n) => NumberedUnique(OP_BR, n, k.n, u, v);
    case BrIf(n) => NumberedUnique(OP_BR_IF, n, k.n, u, v);
    case Return => assert ([OP_RETURN] + u)[1..] == u && ([OP_RETURN] + v)[1..] == v;
    case Call(f) => NumberedUnique(OP_CALL, f, k.f, u, v);
    case CallIndirect(t) => IndirectUnique(t, k.t, u, v);
  }

  lemma FirstByte(i: Ins)
    requires InRange(i)
    ensures Enc(i)[0] !in {OP_END, OP_ELSE}
    ensures Enc(i)[0] == match i case L(l) => LeafOpcode(l) case Block(loop, _, _) => BlockOp(loop) case If(_, _, _) => OP_IF
    ensures i.L? ==> Enc(i)[0] !in {OP_BLOCK, OP_LOOP, OP_IF}
  {
    hide EncLeaf, EncSeq, LeafOpcode, Plainly;
    if i.L? { LeafStarts(i.l); }
  }

  /** Instructions followed by a closing byte are read in one way only. */
  lemma {:induction false} SeqUnique(s: seq<Ins>, t: seq<Ins>, c: byte, d: byte, u: seq<byte>, v: seq<byte>)
    requires InRangeSeq(s) && InRangeSeq(t) && c in {OP_END, OP_ELSE} && d in {OP_END, OP_ELSE}
    requires EncSeq(s) + ([c] + u) == EncSeq(t) + ([d] + v)
    ensures s == t && c == d && u == v
    decreases s
  {
    hide Enc, InRange;
    var x, y := [c] + u, [d] + v;
    assert x[0] == c && y[0] == d && x[1..] == u && y[1..] == v;
    if s == [] {
      assert EncSeq(s) + x == x;
      assert t == [] ==> EncSeq(t) + y == y;
      if t != [] { FirstByte(t[0]); HeadOf(t, y); }
    } else if t == [] {
      assert EncSeq(t) + y == y;
      FirstByte(s[0]); HeadOf(s, x);
    } else {
      var s', t' := EncSeq(s[1..]) + x, EncSeq(t[1..]) + y;
      assert EncSeq(s) + x == Enc(s[0]) + s' && EncSeq(t) + y == Enc(t[0]) + t';
      OneUnique(s[0], t[0], s', t');
      SeqUnique(s[1..], t[1..], c, d, u, v);
    }
  }

  lemma HeadOf(s: seq<Ins>, x: seq<byte>)
    requires s != []
    ensures |EncSeq(s)| >= 1 && (EncSeq(s) + x)[0] == Enc(s[0])[0]
  {
    hide Enc;
  }

  lemma {:induction false} OneUnique(i: Ins, j: Ins, u: seq<byte>, v: seq<byte>)
    requires InRange(i) && InRange(j) && Enc(i) + u == Enc(j) + v
    ensures i == j && u == v
    decreases i
  {
    hide EncLeaf, EncSeq, LeafOpcode, Plainly;
    FirstByte(i);
    FirstByte(j);
    assert (Enc(i) + u)[0] == Enc(i)[0] && (Enc(j) + v)[0] == Enc(j)[0];
    match i
    case L(l) => LeafUnique(l, j.l, u, v);
    case Block(loop, bt, body) =>
      BlockTail(loop, bt, body, u);
      BlockTail(j.loop, j.bt, j.body, v);
      ShiftTwo(BlockOp(loop), bt, EncSeq(body) + ([OP_END] + u), BlockOp(j.loop), j.bt, EncSeq(j.body) + ([OP_END] + v));
      SeqUnique(body, j.body, OP_END, OP_END, u, v);
    case If(bt, thn, els) =>
      var a, b := EncSeq(els) + ([OP_END] + u), EncSeq(j.els) + ([OP_END] + v);
      IfTail(bt, thn, els, u);
      IfTail(j.bt, j.thn, j.els, v);
      ShiftTwo(OP_IF, bt, EncSeq(thn) + ([OP_ELSE] + a), OP_IF, j.bt, EncSeq(j.thn) + ([OP_ELSE] + b));
      SeqUnique(thn, j.thn, OP_ELSE, OP_ELSE, a, b);
      SeqUnique(els, j.els, OP_END, OP_END, u, v);
  }

  lemma BlockTail(loop: bool, bt: byte, body: seq<Ins>, u: seq<byte>)
    ensures Enc(Ins.Block(loop, bt, body)) + u == [BlockOp(loop), bt] + (EncSeq(body) + ([OP_END] + u))
  {
    hide EncSeq;
  }

  lemma IfTail(bt: byte, thn: seq<Ins>, els: seq<Ins>, u: seq<byte>)
    ensures Enc(Ins.If(bt, thn, els)) + u == [OP_IF, bt] + (EncSeq(thn) + ([OP_ELSE] + (EncSeq(els) + ([OP_END] + u))))
  {
    hide EncSeq;
  }

  lemma ShiftTwo(a: byte, b: byte, s: seq<byte>, c: byte, d: byte, t: seq<byte>)
    requires [a, b] + s == [c, d] + t
    ensures a == c && b == d && s == t
  {
    var x, y := [a, b] + s, [c, d] + t;
    assert x[0] == a && x[1] == b && y[0] == c && y[1] == d;
    assert x[2..] == s && y[2..] == t;
  }

  /** Two programs in range have the same bytes only if they are the same program. */
  lemma EncInjective(s: seq<Ins>, t: seq<Ins>)
    requires InRangeSeq(s) && InRangeSeq(t)
    ensures EncSeq(s) == EncSeq(t) <==> s == t
  {
    hide EncSeq;
    if EncSeq(s) == EncSeq(t) { SeqUnique(s, t, OP_END, OP_END, [], []); }
  }

  // ----- lowered programs are in range -----

  /** Fewer names of each kind than an int32_t can count. */
  predicate NamesFit(a: A.Names)
  {
    |a.funcs| < 0x7FFF_FFFF && |a.globals| < 0x7FFF_FFFF && |a.types| < 0x7FFF_FFFF && |a.locals| < 0x7FFF_FFFF
  }

  /** How many labels can be on the stack inside x. */
  function Height(x: Ast): nat
    decreases x
  {
    match x
    case Node(_, args) => HeightSeq(args)
    case Block(_, _, _, body) => 1 + HeightSeq(body)
    case If(_, _, cond, thn, els) => 1 + Max(Height(cond), Max(HeightSeq(thn), HeightSeq(els)))
  }

  function HeightSeq(xs: seq<Ast>): nat
    decreases xs
  {
    if xs == [] then 0 else Max(Height(xs[0]), HeightSeq(xs[1..]))
  }

  lemma {:induction false} FindNameBelow(names: seq<Option<string>>, name: string)
    ensures A.FindName(names, name).Some? ==> A.FindName(names, name).value < |names|
  {
    if names != [] { FindNameBelow(names[1..], name); }
  }

  lemma ResolvedBelow(names: seq<Option<string>>, r: Ref)
    requires RefOk(r) && |names| < 0x7FFF_FFFF
    ensures A.ResolveName(names, RefText(r)).Some? ==> A.ResolveName(names, RefText(r)).value < 0x7FFF_FFFF
    ensures r.Num? ==> A.ResolveName(names, RefText(r)) == Some(r.n)
  {
    hide Dec, IndexText;
    if r.Name? {
      assert RefText(r)[1..] == r.s;
      FindNameBelow(names, r.s);
    } else {
      IndexOfDec(r.n);
    }
  }

  lemma LabelBelow(labels: A.Labels, r: Ref)
    requires RefOk(r) && |labels| <= 0x7FFF_FFFF
    ensures A.ResolveLabel(labels, RefText(r)).Some? ==> A.ResolveLabel(labels, RefText(r)).value < 0x7FFF_FFFF
    ensures r.Name? ==> A.ResolveLabel(labels, RefText(r)) == A.FindLabel(labels, r.s)
    ensures r.Num? ==> A.ResolveLabel(labels, RefText(r)) == Some(r.n)
  {
    hide Dec, IndexText, A.FindLabel;
    if r.Name? {
      assert RefText(r)[1..] == r.s;
      FindLabelIsNearest(labels, r.s);
    } else {
      IndexOfDec(r.n);
    }
  }

  lemma LeafInRange(a: A.Names, labels: A.Labels, op: Op)
    requires OpOk(op) && NamesFit(a) && |labels| <= 0x7FFF_FFFF && LeafOf(a, labels, op).Some?
    ensures Plainly(LeafOf(a, labels, op).value)
  {
    hide A.ResolveName, A.ResolveLabel, RefText;
    match op
    case Index(k, r) =>
      LabelBelow(labels, r);
      ResolvedBelow(a.funcs, r);
      ResolvedBelow(a.locals, r);
      ResolvedBelow(a.globals, r);
    case Indirect(t) => ResolvedBelow(a.types, t);
    case _ =>
  }

  lemma {:induction false} InRangeConcat(s: seq<Ins>, t: seq<Ins>)
    requires InRangeSeq(s) && InRangeSeq(t)
    ensures InRangeSeq(s + t)
    decreases s
  {
    if s == [] {
      assert s + t == t;
    } else {
      assert (s + t)[1..] == s[1..] + t;
      InRangeConcat(s[1..], t);
    }
  }

  lemma InRangeOne(i: Ins)
    requires InRange(i)
    ensures InRangeSeq([i])
  {
    assert [i][1..] == [];
  }

  lemma {:induction false} PrefixHeight(xs: seq<Ast>, t: nat)
    requires t <= |xs|
    ensures HeightSeq(xs[..t]) <= HeightSeq(xs)
    decreases t
  {
    if t > 0 {
      assert xs[..t][1..] == xs[1..][..t - 1];
      PrefixHeight(xs[1..], t - 1);
    }
  }

  lemma TakenHeight(op: Op, args: seq<Ast>)
    ensures HeightSeq(Taken(op, args)) <= HeightSeq(args)
  {
    match Takes(op, |args|)
    case Some(t) => if t < |args| { PrefixHeight(args, t); }
    case None =>
  }

  /** Whatever the source, its immediates are ones the assembler's encoder and the decoder agree on. */
  lemma {:induction false} LowerInRange(a: A.Names, labels: A.Labels, x: Ast, emitted: bool)
    requires AstOk(x) && NamesFit(a) && |labels| + Height(x) <= 0x7FFF_FFFF && Lower(a, labels, x, emitted).Some?
    ensures InRangeSeq(Lower(a, labels, x, emitted).value)
    decreases x, 1
  {
    hide LeafOf;
    match x
    case Node(op, args) =>
      TakenOk(op, args);
      TakenHeight(op, args);
      var kept := if emitted then Taken(op, args) else args;
      LowerSeqInRange(a, labels, kept, emitted);
      LeafInRange(a, labels, op);
      InRangeOne(L(LeafOf(a, labels, op).value));
      InRangeConcat(LowerSeq(a, labels, kept, emitted).value, [L(LeafOf(a, labels, op).value)]);
    case Block(_, name, _, body) => LowerSeqInRange(a, labels + [name], body, emitted);
    case If(name, bt, cond, thn, els) =>
      var inner := labels + [name];
      LowerInRange(a, if emitted then inner else labels, cond, emitted);
      LowerSeqInRange(a, inner, thn, emitted);
      LowerSeqInRange(a, inner, els, emitted);
      InRangeOne(Ins.If(bt, LowerSeq(a, inner, thn, emitted).value, LowerSeq(a, inner, els, emitted).value));
      InRangeConcat(Lower(a, if emitted then inner else labels, cond, emitted).value,
                    [Ins.If(bt, LowerSeq(a, inner, thn, emitted).value, LowerSeq(a, inner, els, emitted).value)]);
  }

  lemma {:induction false} LowerSeqInRange(a: A.Names, labels: A.Labels, xs: seq<Ast>, emitted: bool)
    requires SeqOk(xs) && NamesFit(a) && |labels| + HeightSeq(xs) <= 0x7FFF_FFFF
      && LowerSeq(a, labels, xs, emitted).Some?
    ensures InRangeSeq(LowerSeq(a, labels, xs, emitted).value)
    decreases xs, 0
  {
    hide Lower, InRange;
    if xs != [] {
      LowerInRange(a, labels, xs[0], emitted);
      LowerSeqInRange(a, labels, xs[1..], emitted);
      InRangeConcat(Lower(a, labels, xs[0], emitted).value, LowerSeq(a, labels, xs[1..], emitted).value);
    }
  }

  // ----- folded and flat -----

  /**
   Every instruction's operands are all emitted, and every branch by name is as far from its label on the stack as
   the folded form sees it, out, as on the stack as the flat form sees it, flat: they differ by the label of each if
   whose condition encloses the branch.
   */
  predicate SameLabels(out: A.Labels, flat: A.Labels, x: Ast)
    decreases x
  {
    match x
    case Node(op, args) =>
      && TakesAll(op, args) && (IsLabelRef(op) ==> A.FindLabel(out, op.r.s) == A.FindLabel(flat, op.r.s))
      && SameLabelsSeq(out, flat, args)
    case Block(_, name, _, body) => SameLabelsSeq(out + [name], flat + [name], body)
    case If(name, _, cond, thn, els) =>
      && SameLabels(out + [name], flat, cond)
      && SameLabelsSeq(out + [name], flat + [name], thn) && SameLabelsSeq(out + [name], flat + [name], els)
  }

  predicate SameLabelsSeq(out: A.Labels, flat: A.Labels, xs: seq<Ast>)
    decreases xs
  {
    xs == [] || (SameLabels(out, flat, xs[0]) && SameLabelsSeq(out, flat, xs[1..]))
  }

  /** The number of instructions a piece of source lowers to. */
  function Count(x: Ast): nat
    decreases x
  {
    match x
    case Node(_, args) => CountSeq(args) + 1
    case Block(_, _, _, _) => 1
    case If(_, _, cond, _, _) => Count(cond) + 1
  }

  function CountSeq(xs: seq<Ast>): nat
    decreases xs
  {
    if xs == [] then 0 else Count(xs[0]) + CountSeq(xs[1..])
  }

  lemma {:induction false} CountPositive(x: Ast)
    ensures Count(x) >= 1
  {
  }

  lemma {:induction false} PrefixCount(xs: seq<Ast>, t: nat)
    requires t < |xs|
    ensures CountSeq(xs[..t]) < CountSeq(xs)
    decreases t
  {
    CountPositive(xs[0]);
    if t > 0 {
      assert xs[..t][1..] == xs[1..][..t - 1];
      PrefixCount(xs[1..], t - 1);
    }
  }

  /** Dropping operands makes the code shorter. */
  lemma TakenCount(op: Op, args: seq<Ast>)
    requires Takes(op, |args|).Some?
    ensures CountSeq(Taken(op, args)) <= CountSeq(args)
    ensures !TakesAll(op, args) ==> CountSeq(Taken(op, args)) < CountSeq(args)
  {
    var t := Takes(op, |args|).value;
    if t < |args| { PrefixCount(args, t); }
  }

  lemma {:induction false} LowerCount(a: A.Names, labels: A.Labels, x: Ast, emitted: bool)
    requires AstOk(x) && Lower(a, labels, x, emitted).Some?
    ensures var n := |Lower(a, labels, x, emitted).value|; n <= Count(x) && (!emitted ==> n == Count(x))
    decreases x, 1
  {
    hide LeafOf, Takes;
    match x
    case Node(op, args) =>
      TakenOk(op, args);
      if emitted { TakenCount(op, args); }
      LowerSeqCount(a, labels, if emitted then Taken(op, args) else args, emitted);
    case Block(_, _, _, _) =>
    case If(name, _, cond, _, _) => LowerCount(a, if emitted then labels + [name] else labels, cond, emitted);
  }

  lemma {:induction false} LowerSeqCount(a: A.Names, labels: A.Labels, xs: seq<Ast>, emitted: bool)
    requires SeqOk(xs) && LowerSeq(a, labels, xs, emitted).Some?
    ensures var n := |LowerSeq(a, labels, xs, emitted).value|; n <= CountSeq(xs) && (!emitted ==> n == CountSeq(xs))
    decreases xs, 0
  {
    hide Lower;
    if xs != [] {
      LowerCount(a, labels, xs[0], emitted);
      LowerSeqCount(a, labels, xs[1..], emitted);
    }
  }

  /** a and b are no longer than c and d, so together they are the same only if each is. */
  lemma JoinSame(a: Option<seq<Ins>>, b: Option<seq<Ins>>, c: Option<seq<Ins>>, d: Option<seq<Ins>>)
    requires c.Some? && d.Some? && (a.Some? ==> |a.value| <= |c.value|) && (b.Some? ==> |b.value| <= |d.value|)
    ensures Source.Join(a, b) == Source.Join(c, d) <==> a == c && b == d
  {
    if Source.Join(a, b) == Source.Join(c, d) {
      var s, t := a.value + b.value, c.value + d.value;
      assert s[..|a.value|] == a.value && t[..|c.value|] == c.value;
      assert s[|a.value|..] == b.value && t[|c.value|..] == d.value;
    }
  }

  lemma SameLeaf(a: A.Names, out: A.Labels, flat: A.Labels, op: Op)
    requires OpOk(op) && LeafOf(a, flat, op).Some?
    ensures LeafOf(a, out, op) == LeafOf(a, flat, op)
      <==> (IsLabelRef(op) ==> A.FindLabel(out, op.r.s) == A.FindLabel(flat, op.r.s))
  {
    hide A.ResolveName, IndexText, A.FindLabel;
    if op.Index? && op.r.Name? { assert RefText(op.r)[1..] == op.r.s; }
    if op.Index? && op.r.Num? { IndexOfDec(op.r.n); }
  }

  /** When the standard's program resolves, what the assembler emits is the same exactly under SameLabels. */
  lemma {:induction false} SameIff(a: A.Names, out: A.Labels, flat: A.Labels, x: Ast)
    requires AstOk(x) && Lower(a, flat, x, false).Some?
    ensures Lower(a, out, x, true) == Lower(a, flat, x, false) <==> SameLabels(out, flat, x)
    decreases x, 1
  {
    hide LeafOf, IsLabelRef, LowerSeq, SameLabelsSeq, Takes;
    match x
    case Node(op, args) =>
      SameSeqIff(a, out, flat, args);
      SameLeaf(a, out, flat, op);
      if Takes(op, |args|).Some? {
        TakenOk(op, args);
        TakenCount(op, args);
        var o := LowerSeq(a, out, Taken(op, args), true);
        LowerSeqCount(a, flat, args, false);
        if o.Some? { LowerSeqCount(a, out, Taken(op, args), true); }
        JoinSame(o, LeafCode(LeafOf(a, out, op)), LowerSeq(a, flat, args, false), LeafCode(LeafOf(a, flat, op)));
      }
    case Block(_, name, _, body) => SameSeqIff(a, out + [name], flat + [name], body);
    case If(name, bt, cond, thn, els) =>
      SameIff(a, out + [name], flat, cond);
      SameSeqIff(a, out + [name], flat + [name], thn);
      SameSeqIff(a, out + [name], flat + [name], els);
      if Lower(a, out + [name], cond, true).Some? { LowerCount(a, out + [name], cond, true); }
      LowerCount(a, flat, cond, false);
      JoinSame(Lower(a, out + [name], cond, true), IfSeq(bt, LowerSeq(a, out + [name], thn, true), LowerSeq(a, out + [name], els, true)),
               Lower(a, flat, cond, false), IfSeq(bt, LowerSeq(a, flat + [name], thn, false), LowerSeq(a, flat + [name], els, false)));
  }

  ghost function IfSeq(bt: byte, t: Option<seq<Ins>>, e: Option<seq<Ins>>): Option<seq<Ins>>
  {
    if t.Some? && e.Some? then Some([Ins.If(bt, t.value, e.value)]) else None
  }

  lemma {:induction false} SameSeqIff(a: A.Names, out: A.Labels, flat: A.Labels, xs: seq<Ast>)
    requires SeqOk(xs) && LowerSeq(a, flat, xs, false).Some?
    ensures LowerSeq(a, out, xs, true) == LowerSeq(a, flat, xs, false) <==> SameLabelsSeq(out, flat, xs)
    decreases xs, 0
  {
    hide Lower, SameLabels;
    if xs != [] {
      SameIff(a, out, flat, xs[0]);
      SameSeqIff(a, out, flat, xs[1..]);
      var h, t := Lower(a, out, xs[0], true), LowerSeq(a, out, xs[1..], true);
      if h.Some? { LowerCount(a, out, xs[0], true); }
      if t.Some? { LowerSeqCount(a, out, xs[1..], true); }
      LowerCount(a, flat, xs[0], false);
      LowerSeqCount(a, flat, xs[1..], false);
      JoinSame(h, t, Lower(a, flat, xs[0], false), LowerSeq(a, flat, xs[1..], false));
    }
  }

  /** Labels equally far away: the same program, or none in either form. */
  lemma {:induction false} SameMeans(a: A.Names, out: A.Labels, flat: A.Labels, x: Ast)
    requires AstOk(x) && SameLabels(out, flat, x)
    ensures Lower(a, out, x, true) == Lower(a, flat, x, false)
    decreases x, 1
  {
    hide LeafOf, IsLabelRef;
    match x
    case Node(op, args) =>
      SameSeqMeans(a, out, flat, args);
      SameLeafMeans(a, out, flat, op);
    case Block(_, name, _, body) => SameSeqMeans(a, out + [name], flat + [name], body);
    case If(name, _, cond, thn, els) =>
      SameMeans(a, out + [name], flat, cond);
      SameSeqMeans(a, out + [name], flat + [name], thn);
      SameSeqMeans(a, out + [name], flat + [name], els);
  }

  lemma SameLeafMeans(a: A.Names, out: A.Labels, flat: A.Labels, op: Op)
    requires OpOk(op) && (IsLabelRef(op) ==> A.FindLabel(out, op.r.s) == A.FindLabel(flat, op.r.s))
    ensures LeafOf(a, out, op) == LeafOf(a, flat, op)
  {
    hide A.ResolveName, IndexText, A.FindLabel;
    if op.Index? && op.r.Name? { assert RefText(op.r)[1..] == op.r.s; }
    if op.Index? && op.r.Num? { IndexOfDec(op.r.n); }
  }

  lemma {:induction false} SameSeqMeans(a: A.Names, out: A.Labels, flat: A.Labels, xs: seq<Ast>)
    requires SeqOk(xs) && SameLabelsSeq(out, flat, xs)
    ensures LowerSeq(a, out, xs, true) == LowerSeq(a, flat, xs, false)
    decreases xs, 0
  {
    hide Lower, SameLabels;
    if xs != [] {
      SameMeans(a, out, flat, xs[0]);
      SameSeqMeans(a, out, flat, xs[1..]);
    }
  }

  /** The bytes emitted for a body written in folded and in flat form. */
  ghost function FoldedCode(a: A.Names, labels: A.Labels, xs: seq<Ast>): Option<seq<byte>>
    requires SeqOk(xs)
  {
    A.WholeBody(A.EmitSeq(a, labels, FoldSeq(xs), |xs|, 0))
  }

  ghost function FlatCode(a: A.Names, labels: A.Labels, xs: seq<Ast>): Option<seq<byte>>
    requires SeqOk(xs)
  {
    A.WholeBody(A.EmitSeq(a, labels, FlatSeq(xs), |FlatSeq(xs)|, 0))
  }

  lemma FoldedIsLowered(a: A.Names, labels: A.Labels, xs: seq<Ast>)
    requires SeqOk(xs)
    ensures FoldedCode(a, labels, xs) == Coded(LowerSeq(a, labels, xs, true))
  {
    assert FoldSeq(xs)[0..] == FoldSeq(xs);
    SeqEmits(a, labels, FoldSeq(xs), |xs|, 0, xs);
  }

  lemma FlatIsLowered(a: A.Names, labels: A.Labels, xs: seq<Ast>)
    requires SeqOk(xs) && AllVoidSeq(xs)
    ensures FlatCode(a, labels, xs) == Coded(LowerSeq(a, labels, xs, false))
  {
    hide LowerSeq, FlatSeq, A.EmitFolded, A.EmitFlatLeaf;
    var e := FlatSeq(xs);
    assert e[0..|e|] == e;
    FlatSeqEmits(a, labels, e, |e|, 0, xs);
    var o := LowerSeq(a, labels, xs, false);
    if o.Some? { assert EncSeq(o.value) + [] == EncSeq(o.value); }
  }

  /**
   On a body whose names resolve, the folded form assembles to the bytes of the program the standard means exactly
   when every branch by name has its label equally far away and every instruction has the operands the assembler takes,
   neither more, which it drops, nor fewer, which it refuses.
   */
  lemma FoldedIsStandardIff(a: A.Names, labels: A.Labels, xs: seq<Ast>)
    requires SeqOk(xs) && NamesFit(a) && |labels| + HeightSeq(xs) <= 0x7FFF_FFFF && LowerSeq(a, labels, xs, false).Some?
    ensures FoldedCode(a, labels, xs) == Coded(LowerSeq(a, labels, xs, false)) <==> SameLabelsSeq(labels, labels, xs)
  {
    hide LowerSeq, FoldedCode, EncSeq;
    FoldedIsLowered(a, labels, xs);
    SameSeqIff(a, labels, labels, xs);
    var s, t := LowerSeq(a, labels, xs, true), LowerSeq(a, labels, xs, false);
    if s.Some? {
      LowerSeqInRange(a, labels, xs, true);
      LowerSeqInRange(a, labels, xs, false);
      EncInjective(s.value, t.value);
    }
  }

  /** So flat equals folded, on a body without result types, exactly then. */
  lemma FlatEqualsFoldedIff(a: A.Names, labels: A.Labels, xs: seq<Ast>)
    requires SeqOk(xs) && AllVoidSeq(xs) && NamesFit(a) && |labels| + HeightSeq(xs) <= 0x7FFF_FFFF
    requires FlatCode(a, labels, xs).Some?
    ensures FoldedCode(a, labels, xs) == FlatCode(a, labels, xs) <==> SameLabelsSeq(labels, labels, xs)
  {
    hide LowerSeq, FoldedCode, FlatCode, EncSeq;
    FlatIsLowered(a, labels, xs);
    FoldedIsStandardIff(a, labels, xs);
  }

  /**
   The two operands the standard allows and the folded form loses: the value a br carries, and the condition of a
   br_if that carries a value, which becomes the condition itself.
   */
  lemma BranchOperandsLost(a: A.Names, labels: A.Labels, r: Ref, v: Ast, c: Ast)
    requires RefOk(r) && AstOk(v) && AstOk(c)
    ensures var br, brIf := Index(IndexKind.Br, r), Index(IndexKind.BrIf, r);
      && SeqOk([v]) && SeqOk([v, c])
      && A.EmitFolded(a, labels, Fold(Node(br, [v]))) == A.EmitFolded(a, labels, Fold(Node(br, [])))
      && A.EmitFolded(a, labels, Fold(Node(brIf, [v, c]))) == A.EmitFolded(a, labels, Fold(Node(brIf, [v])))
  {
    hide A.EmitFolded, Fold, LeafOf, AstOk;
    var br, brIf := Index(IndexKind.Br, r), Index(IndexKind.BrIf, r);
    assert [v][1..] == [] && [v, c][1..] == [c] && [c][1..] == [];
    NodeOk(br, []);
    NodeOk(br, [v]);
    NodeOk(brIf, [v]);
    NodeOk(brIf, [v, c]);
    FoldedEmits(a, labels, Node(br, [v]));
    FoldedEmits(a, labels, Node(br, []));
    FoldedEmits(a, labels, Node(brIf, [v, c]));
    FoldedEmits(a, labels, Node(brIf, [v]));
    assert [v][..0] == [] && [v, c][..1] == [v];
  }

  /** (i32.const 1) (drop): the standard's operand may come from before; the folded form is refused without it. */
  lemma OperandBefore(a: A.Names, labels: A.Labels)
    ensures var xs := [Node(Op.Const(W32, "1"), []), Node(Op.Drop, [])];
      && SeqOk(xs) && FoldedCode(a, labels, xs) == None
      && LowerSeq(a, labels, xs, false) == Some([L(P(Plain.Const(W32, 1))), L(P(Plain.Drop))])
  {
    var k, d := Node(Op.Const(W32, "1"), []), Node(Op.Drop, []);
    var xs := [k, d];
    NodeOk(k.op, []);
    NodeOk(d.op, []);
    assert xs[1..] == [d] && [d][1..] == [];
    assert SeqOk([d]);
    hide FoldedCode, LeafOf, AstOk, OpOk;
    FoldedIsLowered(a, labels, xs);
    assert Lower(a, labels, d, true) == None;
    assert LowerSeq(a, labels, [d], true) == None;
    Leaves(a, labels, k.op, P(Plain.Const(W32, 1)));
    Leaves(a, labels, d.op, P(Plain.Drop));
    SingleLowers(a, labels, [d], false);
    assert [L(P(Plain.Const(W32, 1)))] + [L(P(Plain.Drop))] == [L(P(Plain.Const(W32, 1))), L(P(Plain.Drop))];
  }

  lemma Leaves(a: A.Names, labels: A.Labels, op: Op, l: Leaf)
    requires OpOk(op) && LeafOf(a, labels, op) == Some(l)
    ensures AstOk(Node(op, [])) && Lower(a, labels, Node(op, []), false) == Some([L(l)])
  {
    assert LowerSeq(a, labels, [], false) == Some([]);
    assert [] + [L(l)] == [L(l)];
  }

  lemma NodeOk(op: Op, args: seq<Ast>)
    requires OpOk(op) && SeqOk(args)
    ensures AstOk(Node(op, args))
  {
  }

  /** Names bound inside x are as far away whatever lies outside. */
  lemma {:induction false} InsideIsSame(out: A.Labels, flat: A.Labels, inner: A.Labels, x: Ast)
    requires NamesInside(inner, x) && PlainConds(x)
    ensures SameLabels(out + inner, flat + inner, x)
    decreases x, 1
  {
    hide A.FindLabel;
    match x
    case Node(op, args) =>
      if IsLabelRef(op) {
        FindInner(out, inner, op.r.s);
        FindInner(flat, inner, op.r.s);
      }
      InsideIsSameSeq(out, flat, inner, args);
    case Block(_, name, _, body) =>
      Nested(out, flat, inner, name);
      InsideIsSameSeq(out, flat, inner + [name], body);
    case If(name, _, cond, thn, els) =>
      Nested(out, flat, inner, name);
      InsideIsSameSeq(out, flat, inner + [name], thn);
      InsideIsSameSeq(out, flat, inner + [name], els);
      InsideIsSame(out + inner + [name], flat + inner, [], cond);
      Unnest(out + inner + [name], flat + inner);
  }

  lemma Nested(out: A.Labels, flat: A.Labels, inner: A.Labels, name: Option<string>)
    ensures out + (inner + [name]) == out + inner + [name] && flat + (inner + [name]) == flat + inner + [name]
  {
  }

  lemma Unnest(out: A.Labels, flat: A.Labels)
    ensures out + [] == out && flat + [] == flat
  {
  }

  lemma {:induction false} InsideIsSameSeq(out: A.Labels, flat: A.Labels, inner: A.Labels, xs: seq<Ast>)
    requires NamesInsideSeq(inner, xs) && PlainCondsSeq(xs)
    ensures SameLabelsSeq(out + inner, flat + inner, xs)
    decreases xs, 0
  {
    hide NamesInside, PlainConds, SameLabels;
    if xs != [] {
      InsideIsSame(out, flat, inner, xs[0]);
      InsideIsSameSeq(out, flat, inner, xs[1..]);
    }
  }

  /** When no condition branches by name out of itself, the two forms agree on every label. */
  lemma {:induction false} PlainCondsAgree(labels: A.Labels, x: Ast)
    requires PlainConds(x)
    ensures SameLabels(labels, labels, x)
    decreases x, 1
  {
    match x
    case Node(_, args) => PlainCondsAgreeSeq(labels, args);
    case Block(_, name, _, body) => PlainCondsAgreeSeq(labels + [name], body);
    case If(name, _, cond, thn, els) =>
      PlainCondsAgreeSeq(labels + [name], thn);
      PlainCondsAgreeSeq(labels + [name], els);
      InsideIsSame(labels + [name], labels, [], cond);
      Unnest(labels + [name], labels);
  }

  lemma {:induction false} PlainCondsAgreeSeq(labels: A.Labels, xs: seq<Ast>)
    requires PlainCondsSeq(xs)
    ensures SameLabelsSeq(labels, labels, xs)
    decreases xs, 0
  {
    hide PlainConds, SameLabels;
    if xs != [] {
      PlainCondsAgree(labels, xs[0]);
      PlainCondsAgreeSeq(labels, xs[1..]);
    }
  }

  /** The plain case: without such branches and operands the two forms assemble alike, or both not at all. */
  lemma FlatEqualsFolded(a: A.Names, labels: A.Labels, xs: seq<Ast>)
    requires SeqOk(xs) && AllVoidSeq(xs) && PlainCondsSeq(xs)
    ensures FoldedCode(a, labels, xs) == FlatCode(a, labels, xs)
  {
    hide FoldedCode, FlatCode, LowerSeq;
    FoldedIsLowered(a, labels, xs);
    FlatIsLowered(a, labels, xs);
    PlainCondsAgreeSeq(labels, xs);
    SameSeqMeans(a, labels, labels, xs);
  }

  ghost const OUT := Node(Index(IndexKind.Br, Name("l")), [])

  ghost const CROSSING := [Ast.Block(false, Some("l"), TYPE_VOID, [Ast.If(None, TYPE_VOID, OUT, [], [])])]

  /**
   A condition that branches by name out of its if: CROSSING is a block $l holding an if without arms whose
   condition is br $l. The flat form branches to the block, the folded form one construct further out.
   */
  lemma ConditionsDiffer(a: A.Names)
    ensures SeqOk(CROSSING) && AllVoidSeq(CROSSING)
    ensures FlatCode(a, [None], CROSSING) == Some([0x02, 0x40, 0x0C, 0x00, 0x04, 0x40, 0x05, 0x0B, 0x0B])
    ensures FoldedCode(a, [None], CROSSING) == Some([0x02, 0x40, 0x0C, 0x01, 0x04, 0x40, 0x05, 0x0B, 0x0B])
  {
    hide FlatCode, FoldedCode, LowerSeq, EncSeq;
    CrossingOk();
    FoldedIsLowered(a, [None], CROSSING);
    FlatIsLowered(a, [None], CROSSING);
    CrossingLowers(a, false, 0);
    CrossingLowers(a, true, 1);
    DepthBytes(0);
    DepthBytes(1);
  }

  lemma CrossingOk()
    ensures AstOk(OUT) && AstOk(CROSSING[0]) && SeqOk(CROSSING[0].body) && SeqOk(CROSSING) && AllVoidSeq(CROSSING)
  {
    assert AstOk(OUT);
    var i := CROSSING[0].body[0];
    assert AstOk(i) && AllVoid(i);
    assert CROSSING[0].body[1..] == [];
    assert SeqOk(CROSSING[0].body) && AllVoidSeq(CROSSING[0].body);
    assert CROSSING[1..] == [];
  }

  lemma OutLowers(a: A.Names, labels: A.Labels, emitted: bool, d: nat)
    requires A.FindLabel(labels, "l") == Some(d)
    ensures AstOk(OUT) && Lower(a, labels, OUT, emitted) == Some([L(Leaf.Br(d))])
  {
    assert ("$" + "l")[1..] == "l";
    assert [] + [L(Leaf.Br(d))] == [L(Leaf.Br(d))];
  }

  lemma CrossingLowers(a: A.Names, emitted: bool, d: nat)
    requires d == if emitted then 1 else 0
    ensures SeqOk(CROSSING)
    ensures LowerSeq(a, [None], CROSSING, emitted)
      == Some([Ins.Block(false, TYPE_VOID, [L(Leaf.Br(d)), Ins.If(TYPE_VOID, [], [])])])
  {
    CrossingOk();
    var block, i := CROSSING[0], CROSSING[0].body[0];
    var outer := [None] + [Some("l")];
    assert A.FindLabel(outer, "l") == Some(0);
    assert (outer + [None])[..2] == outer;
    assert A.FindLabel(outer + [None], "l") == Some(1);
    OutLowers(a, if emitted then outer + [None] else outer, emitted, d);
    assert [L(Leaf.Br(d))] + [Ins.If(TYPE_VOID, [], [])] == [L(Leaf.Br(d)), Ins.If(TYPE_VOID, [], [])];
    assert Lower(a, outer, i, emitted) == Some([L(Leaf.Br(d)), Ins.If(TYPE_VOID, [], [])]);
    assert block.body[1..] == [] && CROSSING[1..] == [];
    SingleLowers(a, outer, block.body, emitted);
    SingleLowers(a, [None], CROSSING, emitted);
  }

  lemma SingleLowers(a: A.Names, labels: A.Labels, xs: seq<Ast>, emitted: bool)
    requires |xs| == 1 && SeqOk(xs)
    ensures AstOk(xs[0]) && LowerSeq(a, labels, xs, emitted) == Lower(a, labels, xs[0], emitted)
  {
    hide Lower;
    var o := Lower(a, labels, xs[0], emitted);
    if o.Some? { assert o.value + [] == o.value; }
  }

  lemma DepthBytes(d: nat)
    requires d < 0x80
    ensures EncSeq([Ins.Block(false, TYPE_VOID, [L(Leaf.Br(d)), Ins.If(TYPE_VOID, [], [])])])
         == [0x02, 0x40, 0x0C, d, 0x04, 0x40, 0x05, 0x0B, 0x0B]
  {
    hide EncSeq;
    var i := Ins.If(TYPE_VOID, [], []);
    EncOne(L(Leaf.Br(d)));
    EncOne(i);
    EmptyIf();
    EncSeqConcat([L(Leaf.Br(d))], [i]);
    assert [L(Leaf.Br(d))] + [i] == [L(Leaf.Br(d)), i];
    EncOne(Ins.Block(false, TYPE_VOID, [L(Leaf.Br(d)), i]));
  }

  lemma EmptyIf()
    ensures Enc(Ins.If(TYPE_VOID, [], [])) == [0x04, 0x40, 0x05, 0x0B]
  {
  }
}
