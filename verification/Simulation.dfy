/** Under the discipline, the interpreter's structured run agrees with the standard's semantics. */
module Simulation {
  import opened Bytes
  import opened Isa
  import opened Alu
  import opened Machine
  import opened Wasm
  import opened Discipline
  import opened Layout
  import C = Control

  // ----- the relation -----

  /** The loaded module m, with the bodies its code was emitted from, is the program p. */
  ghost predicate Implements(m: Module, bodies: seq<seq<Ins>>, p: Prog)
  {
    && |m.fns| == |bodies| == |p.fns|
    && (forall f :: 0 <= f < |p.fns| ==> ImplementsFn(m.fns[f], bodies[f], p.fns[f]))
    && |m.gtypes| == |p.globals| && (forall i :: 0 <= i < |p.globals| ==> WidthOf(m.gtypes[i]) == p.globals[i])
    && |m.table| == |p.table|
    && (forall i :: 0 <= i < |p.table| ==> m.table[i] == (if p.table[i].None? then NO_FUNC else p.table[i].value))
    && (forall i :: 0 <= i < |p.table| && p.table[i].Some? ==> p.table[i].value != NO_FUNC)
  }

  ghost predicate ImplementsFn(info: FnInfo, body: seq<Ins>, f: Option<Fn>)
  {
    match f
    case None => info.isImport
    case Some(fn) =>
      && !info.isImport && info.params == TypeBytes(fn.params)
      && info.offsets == OffsetsOf(fn.params + fn.locals) && body == fn.body
  }

  /** The machine's state holds the store, with locals of the given types. */
  ghost predicate Holds(m: Module, s: State, st: Store, locals: seq<Width>)
  {
    && Types(st.locals) == locals && AllFit(st.locals) && s.locals == BytesOf(st.locals)
    && |s.globals| == |st.globals| == |m.gtypes| && AllFit(st.globals)
    && (forall i :: 0 <= i < |st.globals| ==> s.globals[i] == st.globals[i].n && st.globals[i].w == WidthOf(m.gtypes[i]))
    && s.memory == st.memory && |s.memory| == m.pages * PAGE
  }

  /** The stack is b, then possibly leftovers, then the bytes of vs; exact: no leftovers. */
  ghost predicate Above(b: seq<byte>, stack: seq<byte>, vs: seq<Val>, exact: bool)
  {
    var top := BytesOf(vs);
    && |b| + |top| <= |stack| && stack[..|b|] == b
    && (if |stack| == |top| then stack else stack[|stack| - |top|..]) == top
    && (exact ==> |stack| == |b| + |top|)
  }

  /** The context's labels allow leftovers wherever the current construct does. */
  predicate CtxOk(c: Ctx)
  {
    |c.labels| > 0 && (c.junk ==> forall n :: 0 <= n < |c.labels| ==> c.labels[n].junk)
  }

  /** With a branch to label n pending, the values it carries are on top, over b. */
  ghost predicate Carries(c: Ctx, n: nat, b: seq<byte>, stack: seq<byte>, vs: seq<Val>)
  {
    n < |c.labels| &&
    var l := c.labels[n];
    && |l.arity| <= |vs| && Types(Last(vs, |l.arity|)) == l.arity && AllFit(vs)
    && (!l.loop && !l.junk ==> l.clean)
    && Above(b, stack, Last(vs, |l.arity|), !l.loop && !l.junk)
  }

  /** The machine's run agrees with the standard's outcome. */
  ghost predicate Agrees(m: Module, c: Ctx, b: seq<byte>, r: C.Run, o: Outcome, t: Typing)
  {
    match o
    case Normal(st, vs) =>
      r.Done? && r.s.jump == 0 && Holds(m, r.s, st, c.locals) && AllFit(vs) && t == Live(Types(vs))
      && Above(b, r.s.stack, vs, !c.junk)
    case Jump(n, st, vs) =>
      r.Done? && r.s.jump == n + 1 && Holds(m, r.s, st, c.locals) && Carries(c, n, b, r.s.stack, vs)
    case Ret(st, vs) =>
      r.Done? && r.s.jump < 0 && Holds(m, r.s, st, c.locals) && |c.labels| > 0 && Carries(c, |c.labels| - 1, b, r.s.stack, vs)
    case Trap => r == C.Stuck
    case NoFuel => r == C.NoFuel
    case Deviant => true
    case Wrong => false
  }

  // ----- plain instructions -----

  /** What a plain instruction does to a stack whose top holds its operands. */
  ghost predicate PlainAgrees(m: Module, x: seq<byte>, s: State, r: Option<State>, e: Effect, outs: seq<Width>,
      locals: seq<Width>)
  {
    match e
    case Ok(st, vs) =>
      r.Some? && r.value.jump == s.jump && Holds(m, r.value, st, locals) && AllFit(vs) && Types(vs) == outs
      && r.value.stack == x + BytesOf(vs)
    case Traps => r == None
    case Deviates => true
  }

  /** The operands are on top of x. */
  ghost predicate Ready(m: Module, p: Prog, offsets: seq<nat>, q: Plain, x: seq<byte>, s: State, st: Store,
      args: seq<Val>)
  {
    && Holds(m, s, st, Types(st.locals)) && offsets == OffsetsOf(Types(st.locals)) && Types(st.globals) == p.globals
    && PlainType(q, Types(st.locals), p.globals).Some?
    && Types(args) == PlainType(q, Types(st.locals), p.globals).value.0 && AllFit(args)
    && s.stack == x + BytesOf(args)
  }

  lemma PlainSim(m: Module, p: Prog, offsets: seq<nat>, q: Plain, x: seq<byte>, s: State, st: Store, args: seq<Val>)
    requires Ready(m, p, offsets, q, x, s, st, args)
    ensures PlainAgrees(m, x, s, StepPlain(m, offsets, q, s), PlainEffect(q, st, args),
                        PlainType(q, Types(st.locals), p.globals).value.1, Types(st.locals))
  {
    hide Ready, PlainAgrees, StepStack, StepLocal, StepGlobal, StepLoad, StepStore, StepNumeric, PlainEffect;
    match q
    case Unreachable | Nop | BrTable(_) => IdleSim(m, p, offsets, q, x, s, st, args);
    case Drop | Select => ParamSim(m, p, offsets, q, x, s, st, args);
    case MemSize | MemGrow => SizeSim(m, p, offsets, q, x, s, st, args);
    case LocalGet(_) | LocalSet(_) | LocalTee(_) => LocalSim(m, p, offsets, q, x, s, st, args);
    case GlobalGet(_) | GlobalSet(_) => GlobalSim(m, p, offsets, q, x, s, st, args);
    case Load(_, _, _, _) => LoadSim(m, p, offsets, q, x, s, st, args);
    case Store(_, _, _) => StoreSim(m, p, offsets, q, x, s, st, args);
    case Bin(_, _) | Rel(_, _) => BinarySim(m, p, offsets, q, x, s, st, args);
    case Const(_, _) | Un(_, _) | Cvt(_) => UnarySim(m, p, offsets, q, x, s, st, args);
  }

  lemma NoOperands(x: seq<byte>, args: seq<Val>)
    requires args == []
    ensures x + BytesOf(args) == x
  {
  }

  lemma OneOperand(x: seq<byte>, args: seq<Val>)
    requires |args| == 1 && AllFit(args)
    ensures x + BytesOf(args) == x + ValBytes(args[0])
    ensures |x + BytesOf(args)| == |x| + Size(args[0].w)
    ensures Top(x + BytesOf(args), args[0].w) == args[0].n && Rest(x + BytesOf(args), Size(args[0].w)) == x
  {
    assert args == [args[0]];
    BytesOfOne(args[0]);
    PopTop(x, args[0]);
  }

  lemma TwoOperands(x: seq<byte>, args: seq<Val>)
    requires |args| == 2 && AllFit(args)
    ensures var s, a, b := x + BytesOf(args), args[0], args[1];
      && |s| == |x| + Size(a.w) + Size(b.w)
      && Top(s, b.w) == b.n && Rest(s, Size(b.w)) == x + ValBytes(a)
      && Top(Rest(s, Size(b.w)), a.w) == a.n && Rest(Rest(s, Size(b.w)), Size(a.w)) == x
  {
    assert args == [args[0], args[1]];
    PopTwo(x, args[0], args[1]);
  }

  /** A pushed result is the single value on x. */
  lemma PushOne(x: seq<byte>, v: Val)
    ensures x + Le(v.n, Size(v.w)) == x + BytesOf([v])
  {
    BytesOfOne(v);
  }

  lemma TypesOfOne(v: Val)
    ensures Types([v]) == [v.w] && (Fit(v) ==> AllFit([v]))
  {
  }

  lemma IdleSim(m: Module, p: Prog, offsets: seq<nat>, q: Plain, x: seq<byte>, s: State, st: Store, args: seq<Val>)
    requires Ready(m, p, offsets, q, x, s, st, args) && (q.Unreachable? || q.Nop? || q.BrTable?)
    ensures PlainAgrees(m, x, s, StepPlain(m, offsets, q, s), PlainEffect(q, st, args),
                        PlainType(q, Types(st.locals), p.globals).value.1, Types(st.locals))
  {
    NoOperands(x, args);
  }

  lemma ParamSim(m: Module, p: Prog, offsets: seq<nat>, q: Plain, x: seq<byte>, s: State, st: Store, args: seq<Val>)
    requires Ready(m, p, offsets, q, x, s, st, args) && (q.Drop? || q.Select?)
    ensures PlainAgrees(m, x, s, StepStack(m, q, s), PlainEffect(q, st, args),
                        PlainType(q, Types(st.locals), p.globals).value.1, Types(st.locals))
  {
    hide Top, Rest, BytesOf;
    assert Types(args)[0] == args[0].w;
    if q.Drop? {
      OneOperand(x, args);
      NoOperands(x, []);
    } else {
      assert Types(args)[1] == args[1].w && Types(args)[2] == args[2].w;
      var y := x + ValBytes(args[0]);
      assert args == [args[0], args[1], args[2]];
      BytesOfThree(args[0], args[1], args[2]);
      assert s.stack == (y + ValBytes(args[1])) + ValBytes(args[2]);
      PopTop(y + ValBytes(args[1]), args[2]);
      PopTop(y, args[1]);
      PopTop(x, args[0]);
      var v := if args[2].n != 0 then args[0] else args[1];
      PushOne(x, v);
      TypesOfOne(v);
    }
  }

  lemma SizeSim(m: Module, p: Prog, offsets: seq<nat>, q: Plain, x: seq<byte>, s: State, st: Store, args: seq<Val>)
    requires Ready(m, p, offsets, q, x, s, st, args) && (q.MemSize? || q.MemGrow?)
    ensures PlainAgrees(m, x, s, StepStack(m, q, s), PlainEffect(q, st, args),
                        PlainType(q, Types(st.locals), p.globals).value.1, Types(st.locals))
  {
    hide Top, Rest, BytesOf;
    assert (|st.memory| / PAGE) % Modulus(W32) == m.pages;
    if q.MemSize? {
      NoOperands(x, args);
      PushOne(x, Val(W32, m.pages));
      TypesOfOne(Val(W32, m.pages));
    } else {
      assert Types(args)[0] == args[0].w;
      OneOperand(x, args);
      var v := Val(W32, if args[0].n == 0 then m.pages else 0xFFFF_FFFF);
      PushOne(x, v);
      TypesOfOne(v);
    }
  }

  lemma LocalSim(m: Module, p: Prog, offsets: seq<nat>, q: Plain, x: seq<byte>, s: State, st: Store, args: seq<Val>)
    requires Ready(m, p, offsets, q, x, s, st, args) && (q.LocalGet? || q.LocalSet? || q.LocalTee?)
    ensures PlainAgrees(m, x, s, StepLocal(q, offsets, s), PlainEffect(q, st, args),
                        PlainType(q, Types(st.locals), p.globals).value.1, Types(st.locals))
  {
    hide BytesOf, Splice, Rest, OffsetsOf;
    var vs, i := st.locals, q.i;
    ReadSlot(vs, i);
    if q.LocalGet? {
      NoOperands(x, args);
      WriteSlot(vs, i, vs[i]);
      BytesOfOne(vs[i]);
      TypesOfOne(vs[i]);
    } else {
      assert Types(args)[0] == args[0].w && Types(vs)[i] == vs[i].w;
      OneOperand(x, args);
      WriteSlot(vs, i, args[0]);
      assert (x + ValBytes(args[0]))[|x|..] == ValBytes(args[0]);
      assert Types(vs[i := args[0]]) == Types(vs);
      assert AllFit(vs[i := args[0]]);
      NoOperands(x, []);
      TypesOfOne(args[0]);
      assert args == [args[0]];
    }
  }

  lemma GlobalSim(m: Module, p: Prog, offsets: seq<nat>, q: Plain, x: seq<byte>, s: State, st: Store, args: seq<Val>)
    requires Ready(m, p, offsets, q, x, s, st, args) && (q.GlobalGet? || q.GlobalSet?)
    ensures PlainAgrees(m, x, s, StepGlobal(m, q, s), PlainEffect(q, st, args),
                        PlainType(q, Types(st.locals), p.globals).value.1, Types(st.locals))
  {
    hide BytesOf, Top, Rest;
    var g := st.globals[q.i];
    assert Types(st.globals)[q.i] == g.w;
    if q.GlobalGet? {
      NoOperands(x, args);
      CutFits(g);
      PushOne(x, g);
      TypesOfOne(g);
    } else {
      assert Types(args)[0] == args[0].w;
      OneOperand(x, args);
      NoOperands(x, []);
      assert AllFit(st.globals[q.i := args[0]]);
    }
  }

  lemma CutFits(v: Val)
    requires Fit(v)
    ensures Cut(v.w, v.n) == v.n
  {
  }

  lemma SignExtendIs(w: Width, bytes: seq<byte>)
    requires AccessWidth(w, |bytes|)
    ensures FromLe(bytes) < Modulus(w) && LoadValue(w, bytes, false) == FromLe(bytes)
    ensures LoadValue(w, bytes, true) < Modulus(w)
    ensures SignExtend(w, |bytes|, FromLe(bytes)) == LoadValue(w, bytes, true)
  {
    Pow256();
    FromLeWidths(bytes);
    FromLeBound(bytes);
  }

  lemma LoadSim(m: Module, p: Prog, offsets: seq<nat>, q: Plain, x: seq<byte>, s: State, st: Store, args: seq<Val>)
    requires Ready(m, p, offsets, q, x, s, st, args) && q.Load?
    ensures PlainAgrees(m, x, s, StepLoad(q.w, q.bytes, q.signed, q.offset, s), PlainEffect(q, st, args),
                        PlainType(q, Types(st.locals), p.globals).value.1, Types(st.locals))
  {
    hide BytesOf, Top, Rest, LoadValue, Machine.SignExtend, FromLe;
    assert Types(args)[0] == args[0].w;
    OneOperand(x, args);
    var a := args[0].n + q.offset;
    if a + q.bytes <= |s.memory| {
      var b := st.memory[a..a + q.bytes];
      SignExtendIs(q.w, b);
      var v := Val(q.w, LoadValue(q.w, b, q.signed));
      PushOne(x, v);
      TypesOfOne(v);
    }
  }

  lemma StoreSim(m: Module, p: Prog, offsets: seq<nat>, q: Plain, x: seq<byte>, s: State, st: Store, args: seq<Val>)
    requires Ready(m, p, offsets, q, x, s, st, args) && q.Store?
    ensures PlainAgrees(m, x, s, StepStore(q.w, q.bytes, q.offset, s), PlainEffect(q, st, args),
                        PlainType(q, Types(st.locals), p.globals).value.1, Types(st.locals))
  {
    hide BytesOf, Top, Rest, Le;
    assert Types(args)[0] == args[0].w && Types(args)[1] == args[1].w;
    TwoOperands(x, args);
    NoOperands(x, []);
  }

  lemma BinarySim(m: Module, p: Prog, offsets: seq<nat>, q: Plain, x: seq<byte>, s: State, st: Store, args: seq<Val>)
    requires Ready(m, p, offsets, q, x, s, st, args) && (q.Bin? || q.Rel?)
    ensures PlainAgrees(m, x, s, StepNumeric(q, s), PlainEffect(q, st, args),
                        PlainType(q, Types(st.locals), p.globals).value.1, Types(st.locals))
  {
    hide BytesOf, Top, Rest, CBin, StdBin, CRel, StdRel, BinDeviates, RelDeviates;
    assert Types(args)[0] == args[0].w && Types(args)[1] == args[1].w;
    assert Fit(args[0]) && Fit(args[1]);
    TwoOperands(x, args);
    var i, j := args[0].n, args[1].n;
    if q.Bin? {
      BinAgrees(q.w, q.bop, i, j);
      StdBinFits(q.w, q.bop, i, j);
      if StdBin(q.w, q.bop, i, j).Some? && !BinDeviates(q.w, q.bop, i, j) {
        var v := Val(q.w, StdBin(q.w, q.bop, i, j).value);
        PushOne(x, v);
        TypesOfOne(v);
      }
    } else {
      RelAgrees(q.w, q.rop, i, j);
      var v := Val(W32, if StdRel(q.w, q.rop, i, j) then 1 else 0);
      PushOne(x, v);
      TypesOfOne(v);
    }
  }

  lemma UnarySim(m: Module, p: Prog, offsets: seq<nat>, q: Plain, x: seq<byte>, s: State, st: Store, args: seq<Val>)
    requires Ready(m, p, offsets, q, x, s, st, args) && (q.Const? || q.Un? || q.Cvt?)
    ensures PlainAgrees(m, x, s, StepNumeric(q, s), PlainEffect(q, st, args),
                        PlainType(q, Types(st.locals), p.globals).value.1, Types(st.locals))
  {
    hide BytesOf, Top, Rest, CUn, StdUn, CCvt, StdCvt, Cut;
    if q.Const? {
      NoOperands(x, args);
      CutIsMod(q.w, q.v);
      PushOne(x, Val(q.w, Cut(q.w, q.v)));
      TypesOfOne(Val(q.w, Cut(q.w, q.v)));
    } else {
      assert Types(args)[0] == args[0].w;
      assert Fit(args[0]);
      OneOperand(x, args);
      var n := args[0].n;
      if q.Un? {
        UnAndCvtAgree(q.w, q.uop, WrapI64, n);
        UnFits(q.w, q.uop, n);
        var v := Val(if q.uop == Eqz then W32 else q.w, StdUn(q.w, q.uop, n));
        PushOne(x, v);
        TypesOfOne(v);
      } else {
        UnAndCvtAgree(W32, Eqz, q.cop, n);
        CvtFits(q.cop, n);
        var v := Val(CvtTo(q.cop), StdCvt(q.cop, n));
        PushOne(x, v);
        TypesOfOne(v);
      }
    }
  }

  lemma UnFits(w: Width, op: UnOp, n: nat)
    requires Fits(w, n)
    ensures Fits(if op == Eqz then W32 else w, StdUn(w, op, n))
  {
    ModulusSplits(w, 0);
    CountsBelow(n, Bits(w));
  }

  lemma {:induction false} CountsBelow(x: nat, n: nat)
    ensures LeadingZeros(x, n) <= n && TrailingZeros(x, n) <= n
    ensures x < Pow2(n) ==> Ones(x) <= n
  {
    if n > 0 { CountsBelow(x, n - 1); CountsBelow(x / 2, n - 1); }
  }

  lemma CvtFits(op: CvtOp, n: nat)
    requires Fits(CvtFrom(op), n)
    ensures Fits(CvtTo(op), StdCvt(op, n))
  {
  }
}
