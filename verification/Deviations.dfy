/** What the interpreter leaves on the stack that the standard does not, on code outside the discipline. */
module Deviations {
  import opened Bytes
  import opened Isa
  import opened Alu
  import opened Machine
  import opened Wasm
  import opened Layout
  import opened Expressions
  import C = Control
  import S = Simulation

  ghost function Number(v: nat): Ins { L(P(Plain.Const(W32, v))) }

  ghost const ADD: Ins := L(P(Plain.Bin(W32, Add)))

  function Word(v: nat): seq<byte> { Le(v, 4) }

  /** The sum of two 32-bit numbers, wrapped. */
  function Sum(i: u32, j: u32): u32 { if i + j < 0x1_0000_0000 then i + j else i + j - 0x1_0000_0000 }

  lemma SumIsMod(i: u32, j: u32)
    ensures Sum(i, j) == (i + j) % 0x1_0000_0000
  {
  }

  /** a pending, then an if on c whose arms are t and e, then an addition. */
  ghost function AddIf(a: u32, c: u32, t: u32, e: u32): seq<Ins>
  {
    [Number(a), Number(c), Ins.If(TYPE_I32, [Number(t)], [Number(e)]), ADD]
  }

  /** a pending, then a block that branches to its own end over a surplus b with c, then an addition. */
  ghost function AddBlock(a: u32, b: u32, c: u32): seq<Ins>
  {
    [Number(a), Ins.Block(false, TYPE_I32, [Number(b), Number(c), L(Leaf.Br(0))]), ADD]
  }

  lemma RunNumber(m: Module, bodies: seq<seq<Ins>>, fuel: nat, offsets: seq<nat>, v: u32, s: State)
    ensures C.RunOne(m, bodies, fuel, offsets, Number(v), s) == C.Done(s.(stack := s.stack + Word(v)))
  {
    assert Cut(W32, v) == v;
  }

  lemma TopWord(x: seq<byte>, v: u32)
    ensures |x + Word(v)| == |x| + 4 && Top(x + Word(v), W32) == v && Rest(x + Word(v), 4) == x
  {
    PopTop(x, Val(W32, v));
  }

  lemma RunAdd(m: Module, bodies: seq<seq<Ins>>, fuel: nat, offsets: seq<nat>, x: seq<byte>, i: u32, j: u32, s: State)
    requires s.stack == x + Word(i) + Word(j)
    ensures C.RunOne(m, bodies, fuel, offsets, ADD, s) == C.Done(s.(stack := x + Word(Sum(i, j))))
  {
    hide Top, Rest;
    SumIsMod(i, j);
    TopWord(x + Word(i), j);
    TopWord(x, i);
  }

  /** Two steps of a sequence that fall through. */
  lemma RunStep(m: Module, bodies: seq<seq<Ins>>, fuel: nat, offsets: seq<nat>, ins: seq<Ins>, s: State)
    requires ins != []
    ensures var r := C.RunOne(m, bodies, fuel, offsets, ins[0], s);
      r.Done? && r.s.jump == 0 ==> C.RunSeq(m, bodies, fuel, offsets, ins, s) == C.RunSeq(m, bodies, fuel, offsets, ins[1..], r.s)
  {
    hide C.RunOne;
  }

  lemma EvalStep(p: Prog, fuel: nat, ins: seq<Ins>, st: Wasm.Store, vs: seq<Val>)
    requires ins != []
    ensures var o := EvalOne(p, fuel, ins[0], st, vs);
      o.Normal? ==> EvalSeq(p, fuel, ins, st, vs) == EvalSeq(p, fuel, ins[1..], o.s, o.stack)
  {
    hide EvalOne;
  }

  lemma EvalNumber(p: Prog, fuel: nat, v: u32, st: Wasm.Store, vs: seq<Val>)
    requires AllFit(vs)
    ensures EvalOne(p, fuel, Number(v), st, vs) == Normal(st, vs + [Val(W32, v)])
  {
    assert Types(Last(vs, 0)) == [];
    assert vs[..|vs|] == vs;
    assert v % Modulus(W32) == v;
  }

  /** A plain instruction that takes the whole stack. */
  lemma EvalWhole(q: Plain, st: Wasm.Store, vs: seq<Val>, ins: seq<Width>, outs: seq<Width>, st': Wasm.Store,
      out: seq<Val>)
    requires PlainType(q, Types(st.locals), Types(st.globals)) == Some((ins, outs)) && Types(vs) == ins && AllFit(vs)
    requires PlainEffect(q, st, vs) == Ok(st', out)
    ensures EvalPlain(q, st, vs) == Normal(st', out)
  {
    hide PlainEffect, PlainType;
    assert Last(vs, |ins|) == vs && vs[..0] == [] && [] + out == out;
  }

  lemma AddEffect(i: u32, j: u32, st: Wasm.Store)
    ensures var vs := [Val(W32, i), Val(W32, j)];
      Types(vs) == [W32, W32] && AllFit(vs) && PlainType(Plain.Bin(W32, Add), Types(st.locals), Types(st.globals)) == Some(([W32, W32], [W32]))
      && PlainEffect(Plain.Bin(W32, Add), st, vs) == Ok(st, [Val(W32, Sum(i, j))])
  {
    var vs := [Val(W32, i), Val(W32, j)];
    SumIsMod(i, j);
    assert Types(vs) == [W32, W32];
    assert !BinDeviates(W32, Add, i, j);
    assert StdBin(W32, Add, i, j) == Some(Sum(i, j));
  }

  /** One number as a body. */
  lemma RunArm(m: Module, bodies: seq<seq<Ins>>, fuel: nat, offsets: seq<nat>, v: u32, s: State)
    requires s.jump == 0
    ensures C.RunFrame(m, bodies, fuel, offsets, [Number(v)], false, s) == C.Done(s.(stack := s.stack + Word(v)))
  {
    hide C.RunOne;
    RunNumber(m, bodies, fuel, offsets, v, s);
    RunStep(m, bodies, fuel, offsets, [Number(v)], s);
    assert [Number(v)][1..] == [];
  }

  lemma EvalArm(p: Prog, fuel: nat, v: u32, st: Wasm.Store)
    ensures EvalBody(p, fuel, [Number(v)], false, 1, st) == Normal(st, [Val(W32, v)])
  {
    hide EvalOne;
    EvalNumber(p, fuel, v, st, []);
    assert [] + [Val(W32, v)] == [Val(W32, v)];
    EvalStep(p, fuel, [Number(v)], st, []);
    assert [Number(v)][1..] == [];
  }

  /**
   if under a pending operand: the standard adds the operand, the machine the condition it left on the stack.
   They agree exactly when the two are equal.
   */
  lemma IfUnderOperand(m: Module, bodies: seq<seq<Ins>>, p: Prog, fuel: nat, offsets: seq<nat>, a: u32, c: u32, t: u32,
      e: u32, s: State, st: Wasm.Store)
    requires s.jump == 0
    ensures var r := if c != 0 then t else e;
      && EvalSeq(p, fuel, AddIf(a, c, t, e), st, []) == Normal(st, [Val(W32, Sum(a, r))])
      && C.RunSeq(m, bodies, fuel, offsets, AddIf(a, c, t, e), s)
        == C.Done(s.(stack := s.stack + Word(a) + Word(Sum(c, r))))
      && (Sum(a, r) == Sum(c, r) <==> a == c)
  {
    hide C.RunOne, EvalOne, C.RunSeq, EvalSeq;
    IfMachine(m, bodies, fuel, offsets, a, c, t, e, s);
    IfStandard(p, fuel, a, c, t, e, st);
  }

  lemma IfMachine(m: Module, bodies: seq<seq<Ins>>, fuel: nat, offsets: seq<nat>, a: u32, c: u32, t: u32, e: u32,
      s: State)
    requires s.jump == 0
    ensures var r := if c != 0 then t else e;
      C.RunSeq(m, bodies, fuel, offsets, AddIf(a, c, t, e), s) == C.Done(s.(stack := s.stack + Word(a) + Word(Sum(c, r))))
  {
    hide C.RunOne, C.RunSeq;
    var ins := AddIf(a, c, t, e);
    var s1 := s.(stack := s.stack + Word(a));
    var s2 := s1.(stack := s1.stack + Word(c));
    var r := if c != 0 then t else e;
    RunNumber(m, bodies, fuel, offsets, a, s);
    RunStep(m, bodies, fuel, offsets, ins, s);
    RunNumber(m, bodies, fuel, offsets, c, s1);
    RunStep(m, bodies, fuel, offsets, ins[1..], s1);
    IfRuns(m, bodies, fuel, offsets, c, t, e, s1.stack, s2);
    RunStep(m, bodies, fuel, offsets, ins[2..], s2);
    assert ins[1..][1..] == ins[2..] && ins[2..][1..] == ins[3..] == [ADD] && ins[1..][0] == Number(c);
    var s3 := s2.(stack := s2.stack + Word(r));
    RunAdd(m, bodies, fuel, offsets, s1.stack, c, r, s3);
    RunLast(m, bodies, fuel, offsets, ADD, s3);
  }

  lemma RunLast(m: Module, bodies: seq<seq<Ins>>, fuel: nat, offsets: seq<nat>, i: Ins, s: State)
    ensures C.RunOne(m, bodies, fuel, offsets, i, s).Done? ==>
      C.RunSeq(m, bodies, fuel, offsets, [i], s) == C.RunOne(m, bodies, fuel, offsets, i, s)
  {
    hide C.RunOne;
    assert [i][1..] == [];
  }

  lemma IfRuns(m: Module, bodies: seq<seq<Ins>>, fuel: nat, offsets: seq<nat>, c: u32, t: u32, e: u32, x: seq<byte>,
      s: State)
    requires s.jump == 0 && s.stack == x + Word(c)
    ensures C.RunOne(m, bodies, fuel, offsets, Ins.If(TYPE_I32, [Number(t)], [Number(e)]), s)
         == C.Done(s.(stack := s.stack + Word(if c != 0 then t else e)))
  {
    hide C.RunFrame, Top;
    TopWord(x, c);
    RunArm(m, bodies, fuel, offsets, t, s);
    RunArm(m, bodies, fuel, offsets, e, s);
  }

  lemma IfStandard(p: Prog, fuel: nat, a: u32, c: u32, t: u32, e: u32, st: Wasm.Store)
    ensures var r := if c != 0 then t else e;
      EvalSeq(p, fuel, AddIf(a, c, t, e), st, []) == Normal(st, [Val(W32, Sum(a, r))])
  {
    hide EvalPlain, PlainEffect, PlainType, Types, EvalSeq;
    var ins := AddIf(a, c, t, e);
    var r := if c != 0 then t else e;
    var v1, v2, v3 := [Val(W32, a)], [Val(W32, a), Val(W32, c)], [Val(W32, a), Val(W32, r)];
    EvalNumber(p, fuel, a, st, []);
    assert [] + [Val(W32, a)] == v1;
    EvalStep(p, fuel, ins, st, []);
    EvalNumber(p, fuel, c, st, v1);
    assert v1 + [Val(W32, c)] == v2;
    EvalStep(p, fuel, ins[1..], st, v1);
    IfEvals(p, fuel, a, c, t, e, st);
    EvalStep(p, fuel, ins[2..], st, v2);
    assert ins[1..][1..] == ins[2..] && ins[2..][1..] == ins[3..] == [ADD] && ins[1..][0] == Number(c);
    AddEffect(a, r, st);
    EvalWhole(ADD.l.p, st, v3, [W32, W32], [W32], st, [Val(W32, Sum(a, r))]);
    EvalLast(p, fuel, ADD, st, v3);
  }

  lemma EvalLast(p: Prog, fuel: nat, i: Ins, st: Wasm.Store, vs: seq<Val>)
    ensures EvalOne(p, fuel, i, st, vs).Normal? ==> EvalSeq(p, fuel, [i], st, vs) == EvalOne(p, fuel, i, st, vs)
  {
    hide EvalOne;
    assert [i][1..] == [];
  }

  lemma IfEvals(p: Prog, fuel: nat, a: u32, c: u32, t: u32, e: u32, st: Wasm.Store)
    ensures EvalOne(p, fuel, Ins.If(TYPE_I32, [Number(t)], [Number(e)]), st, [Val(W32, a), Val(W32, c)])
         == Normal(st, [Val(W32, a), Val(W32, if c != 0 then t else e)])
  {
    hide EvalBody;
    assert [Val(W32, a), Val(W32, c)][..1] == [Val(W32, a)];
    EvalArm(p, fuel, t, st);
    EvalArm(p, fuel, e, st);
  }

  /**
   A forward branch over a surplus operand: the standard drops it, the machine adds it. They agree exactly when
   the surplus and the pending operand are equal.
   */
  lemma SurplusUnderBranch(m: Module, bodies: seq<seq<Ins>>, p: Prog, fuel: nat, offsets: seq<nat>, a: u32, b: u32,
      c: u32, s: State, st: Wasm.Store)
    requires s.jump == 0
    ensures EvalSeq(p, fuel, AddBlock(a, b, c), st, []) == Normal(st, [Val(W32, Sum(a, c))])
    ensures C.RunSeq(m, bodies, fuel, offsets, AddBlock(a, b, c), s)
      == C.Done(s.(stack := s.stack + Word(a) + Word(Sum(b, c))))
    ensures Sum(a, c) == Sum(b, c) <==> a == b
  {
    hide C.RunOne, EvalOne, C.RunSeq, EvalSeq, AddBlock;
    BlockMachine(m, bodies, fuel, offsets, a, b, c, s);
    BlockStandard(p, fuel, a, b, c, st);
  }

  lemma BlockMachine(m: Module, bodies: seq<seq<Ins>>, fuel: nat, offsets: seq<nat>, a: u32, b: u32, c: u32, s: State)
    requires s.jump == 0
    ensures C.RunSeq(m, bodies, fuel, offsets, AddBlock(a, b, c), s)
      == C.Done(s.(stack := s.stack + Word(a) + Word(Sum(b, c))))
  {
    hide C.RunOne, C.RunSeq, Word;
    var ins := AddBlock(a, b, c);
    assert ins[1..][1..] == [ADD] && ins[1..][0] == ins[1];
    var s1 := s.(stack := s.stack + Word(a));
    var s2 := s1.(stack := s1.stack + Word(b) + Word(c));
    RunNumber(m, bodies, fuel, offsets, a, s);
    RunStep(m, bodies, fuel, offsets, ins, s);
    BlockRuns(m, bodies, fuel, offsets, b, c, s1);
    RunStep(m, bodies, fuel, offsets, ins[1..], s1);
    RunAdd(m, bodies, fuel, offsets, s1.stack, b, c, s2);
    RunLast(m, bodies, fuel, offsets, ADD, s2);
  }

  lemma BlockStandard(p: Prog, fuel: nat, a: u32, b: u32, c: u32, st: Wasm.Store)
    ensures EvalSeq(p, fuel, AddBlock(a, b, c), st, []) == Normal(st, [Val(W32, Sum(a, c))])
  {
    hide EvalPlain, PlainEffect, PlainType, Types, EvalSeq;
    var ins := AddBlock(a, b, c);
    assert ins[1..][1..] == [ADD] && ins[1..][0] == ins[1];
    var v1, v2 := [Val(W32, a)], [Val(W32, a), Val(W32, c)];
    EvalNumber(p, fuel, a, st, []);
    assert [] + [Val(W32, a)] == v1;
    EvalStep(p, fuel, ins, st, []);
    BlockEvals(p, fuel, b, c, st, v1);
    assert v1 + [Val(W32, c)] == v2;
    EvalStep(p, fuel, ins[1..], st, v1);
    AddEffect(a, c, st);
    EvalWhole(ADD.l.p, st, v2, [W32, W32], [W32], st, [Val(W32, Sum(a, c))]);
    EvalLast(p, fuel, ADD, st, v2);
  }

  lemma BlockRuns(m: Module, bodies: seq<seq<Ins>>, fuel: nat, offsets: seq<nat>, b: u32, c: u32, s: State)
    requires s.jump == 0
    ensures C.RunOne(m, bodies, fuel, offsets, Ins.Block(false, TYPE_I32, [Number(b), Number(c), L(Leaf.Br(0))]), s)
         == C.Done(s.(stack := s.stack + Word(b) + Word(c)))
  {
    hide C.RunSeq;
    var body := [Number(b), Number(c), L(Leaf.Br(0))];
    assert body[1..][1..] == body[2..] == [L(Leaf.Br(0))] && body[1..][0] == body[1];
    var s1 := s.(stack := s.stack + Word(b));
    var s2 := s1.(stack := s1.stack + Word(c));
    RunNumber(m, bodies, fuel, offsets, b, s);
    RunStep(m, bodies, fuel, offsets, body, s);
    RunNumber(m, bodies, fuel, offsets, c, s1);
    RunStep(m, bodies, fuel, offsets, body[1..], s1);
    RunLast(m, bodies, fuel, offsets, L(Leaf.Br(0)), s2);
    assert C.RunOne(m, bodies, fuel, offsets, L(Leaf.Br(0)), s2) == C.Done(s2.(jump := 1));
    assert C.RunSeq(m, bodies, fuel, offsets, body, s) == C.Done(s2.(jump := 1));
  }

  lemma BlockEvals(p: Prog, fuel: nat, b: u32, c: u32, st: Wasm.Store, below: seq<Val>)
    ensures EvalOne(p, fuel, Ins.Block(false, TYPE_I32, [Number(b), Number(c), L(Leaf.Br(0))]), st, below)
      == Normal(st, below + [Val(W32, c)])
  {
    hide EvalSeq;
    var body := [Number(b), Number(c), L(Leaf.Br(0))];
    assert body[1..][1..] == body[2..] == [L(Leaf.Br(0))] && body[1..][0] == body[1];
    var v1, v2 := [Val(W32, b)], [Val(W32, b), Val(W32, c)];
    EvalNumber(p, fuel, b, st, []);
    assert [] + [Val(W32, b)] == v1;
    EvalStep(p, fuel, body, st, []);
    EvalNumber(p, fuel, c, st, v1);
    assert v1 + [Val(W32, c)] == v2;
    EvalStep(p, fuel, body[1..], st, v1);
    EvalBranch(p, fuel, st, v2);
    assert Last(v2, 1) == [Val(W32, c)];
    assert EvalSeq(p, fuel, body, st, []) == Jump(0, st, v2);
  }

  lemma EvalBranch(p: Prog, fuel: nat, st: Wasm.Store, vs: seq<Val>)
    ensures EvalSeq(p, fuel, [L(Leaf.Br(0))], st, vs) == Jump(0, st, vs)
  {
    var ins := [L(Leaf.Br(0))];
    assert ins[0] == L(Leaf.Br(0));
    assert EvalOne(p, fuel, ins[0], st, vs) == EvalLeaf(p, fuel, Leaf.Br(0), st, vs);
  }

  // ----- accesses -----

  /** read_mem8 to read_mem64: the number in n bytes, with no bound but the pool's. */
  function ReadMem(pool: seq<byte>, at: nat, n: nat): nat
    requires at + n <= |pool|
  {
    FromLe(pool[at..at + n])
  }

  /** write_mem8 to write_mem64. */
  function WriteMem(pool: seq<byte>, at: nat, v: nat, n: nat): (r: seq<byte>)
    requires at + n <= |pool|
    ensures |r| == |pool|
  {
    Splice(pool, at, Le(v, n))
  }

  /** The interpreter's loads, on the pool in which linear memory starts at base. None: a stack too short, or outside the pool. */
  function PoolLoad(w: Width, n: nat, signed: bool, o: nat, pool: seq<byte>, base: nat, s: State): Option<State>
  {
    if |s.stack| < 4 || base + (Top(s.stack, W32) + o) + n > |pool| then None
    else
      var v := ReadMem(pool, base + (Top(s.stack, W32) + o), n);
      Some(Push(s.(stack := Rest(s.stack, 4)), w, if signed then Machine.SignExtend(w, n, v) else v))
  }

  /** The interpreter's stores: the state, whose memory is its part of the pool, and the pool. */
  function PoolStore(w: Width, n: nat, o: nat, pool: seq<byte>, base: nat, s: State): Option<(State, seq<byte>)>
    requires base + |s.memory| <= |pool|
  {
    if |s.stack| < 4 + Size(w) then None
    else
      var v, rest := Top(s.stack, w), Rest(s.stack, Size(w));
      var at := base + (Top(rest, W32) + o);
      if at + n > |pool| then None
      else
        var pool' := WriteMem(pool, at, v, n);
        Some((s.(stack := Rest(rest, 4), memory := pool'[base..base + |s.memory|]), pool'))
  }

  /** The state after an instruction on a stack that was x and its operands is what the effect says. */
  ghost predicate AsStd(x: seq<byte>, s: State, r: Option<State>, e: Effect)
  {
    match e
    case Ok(st, out) => r == Some(s.(stack := x + BytesOf(out), memory := st.memory))
    case Traps => r == None
    case Deviates => true
  }

  /** The linear memory's part of the pool. */
  ghost predicate LiesIn(memory: seq<byte>, pool: seq<byte>, base: nat)
  {
    base + |memory| <= |pool| && pool[base..base + |memory|] == memory
  }

  lemma SliceSlice(s: seq<byte>, lo: nat, hi: nat, i: nat, j: nat)
    requires i <= j && lo + j <= hi <= |s|
    ensures s[lo..hi][i..j] == s[lo + i..lo + j]
  {
    forall k | 0 <= k < j - i ensures s[lo..hi][i..j][k] == s[lo + i..lo + j][k] {
      assert s[lo..hi][i + k] == s[lo + i + k];
    }
  }

  /** Inside memory: the bytes at an address of the linear memory are those at that distance from base in the pool. */
  lemma SameBytes(memory: seq<byte>, pool: seq<byte>, base: nat, a: nat, n: nat)
    requires LiesIn(memory, pool, base) && a + n <= |memory|
    ensures pool[base + a..base + a + n] == memory[a..a + n]
  {
    SliceSlice(pool, base, base + |memory|, a, a + n);
  }

  /**
   A load reads whatever the pool holds at its address. It is the load of the machine, and does what the standard says,
   exactly when the address and the width stay within linear memory; where they do not, the standard traps.
   */
  lemma LoadIff(w: Width, n: nat, signed: bool, o: nat, i: u32, x: seq<byte>, s: State, st: Wasm.Store, pool: seq<byte>,
      base: nat)
    requires AccessWidth(w, n) && LiesIn(s.memory, pool, base) && base + (i + o) + n <= |pool|
    requires s.memory == st.memory && s.stack == x + Word(i)
    ensures var q, args, r := Plain.Load(w, n, signed, o), [Val(W32, i)], PoolLoad(w, n, signed, o, pool, base, s);
      && PlainType(q, Types(st.locals), Types(st.globals)).Some? && Types(args) == [W32] && AllFit(args) && r.Some?
      && (AsStd(x, s, r, StdEffect(q, st, args)) <==> i + o + n <= |s.memory|)
      && (StepLoad(w, n, signed, o, s) == r <==> i + o + n <= |s.memory|)
  {
    hide LoadValue, LiesIn, Machine.SignExtend, FromLe, Top, Rest, BytesOf, Le;
    TopWord(x, i);
    assert Types([Val(W32, i)]) == [W32];
    if i + o + n <= |s.memory| {
      SameBytes(s.memory, pool, base, i + o, n);
      var b := st.memory[i + o..i + o + n];
      S.SignExtendIs(w, b);
      S.PushOne(x, Val(w, LoadValue(w, b, signed)));
    }
  }

  lemma WriteInside(memory: seq<byte>, pool: seq<byte>, base: nat, a: nat, bytes: seq<byte>)
    requires LiesIn(memory, pool, base) && a + |bytes| <= |memory|
    ensures var r := Splice(pool, base + a, bytes);
      && r[base..base + |memory|] == Splice(memory, a, bytes)
      && r[..base] == pool[..base] && r[base + |memory|..] == pool[base + |memory|..]
  {
    var r, m := Splice(pool, base + a, bytes), Splice(memory, a, bytes);
    assert |r[base..base + |memory|]| == |m|;
    forall k | 0 <= k < |memory| ensures r[base..base + |memory|][k] == m[k] {
      assert pool[base..base + |memory|][k] == pool[base + k];
    }
  }

  /** A store is the machine's, and does what the standard says, exactly when it stays within linear memory; then it touches
      nothing else in the pool. */
  lemma StoreIff(w: Width, n: nat, o: nat, i: u32, v: nat, x: seq<byte>, s: State, st: Wasm.Store, pool: seq<byte>,
      base: nat)
    requires AccessWidth(w, n) && Fits(w, v) && LiesIn(s.memory, pool, base) && base + (i + o) + n <= |pool|
    requires s.memory == st.memory && s.stack == x + BytesOf([Val(W32, i), Val(w, v)])
    ensures var q, args, r := Plain.Store(w, n, o), [Val(W32, i), Val(w, v)], PoolStore(w, n, o, pool, base, s);
      && PlainType(q, Types(st.locals), Types(st.globals)).Some? && Types(args) == [W32, w] && AllFit(args) && r.Some?
      && (AsStd(x, s, Some(r.value.0), StdEffect(q, st, args)) <==> i + o + n <= |s.memory|)
      && (StepStore(w, n, o, s) == Some(r.value.0) <==> i + o + n <= |s.memory|)
      && (i + o + n <= |s.memory| ==>
            r.value.1[..base] == pool[..base] && r.value.1[base + |s.memory|..] == pool[base + |s.memory|..])
  {
    hide LiesIn, Le, Top, Rest, BytesOf, Splice;
    var args := [Val(W32, i), Val(w, v)];
    assert Types(args) == [W32, w];
    S.TwoOperands(x, args);
    S.NoOperands(x, []);
    if i + o + n <= |s.memory| {
      WriteInside(s.memory, pool, base, i + o, Le(v, n));
      SpliceIs(s.memory, i + o, Le(v, n));
    }
  }

  lemma SpliceIs(m: seq<byte>, at: nat, bytes: seq<byte>)
    requires at + |bytes| <= |m|
    ensures Splice(m, at, bytes) == m[..at] + bytes + m[at + |bytes|..]
  {
  }
}
