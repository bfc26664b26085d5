/**
 Meaning preservation: on a program that obeys the discipline, every run of the interpreter's structured
 code agrees with the standard's run under the same fuel.
 */
module Preservation {
  import opened Bytes
  import opened Isa
  import opened Alu
  import opened Machine
  import opened Wasm
  import opened Discipline
  import opened Layout
  import opened Simulation
  import C = Control

  // ----- stacks over a base -----

  lemma AboveExact(b: seq<byte>, vs: seq<Val>, exact: bool)
    ensures Above(b, b + BytesOf(vs), vs, exact)
  {
  }

  /** What is above a higher base is above a lower one. */
  lemma AboveTrans(b: seq<byte>, b': seq<byte>, stack: seq<byte>, vs: seq<Val>, exact: bool)
    requires Above(b', stack, vs, exact)
    requires |b| <= |b'| && b'[..|b|] == b && (exact ==> b' == b)
    ensures Above(b, stack, vs, exact)
  {
    hide BytesOf;
    assert stack[..|b|] == stack[..|b'|][..|b|];
  }

  /** The part of a stack under its values. */
  ghost function Base(stack: seq<byte>, vs: seq<Val>): seq<byte>
    requires |BytesOf(vs)| <= |stack|
  {
    stack[..|stack| - |BytesOf(vs)|]
  }

  lemma BaseOf(b: seq<byte>, stack: seq<byte>, vs: seq<Val>, exact: bool)
    requires Above(b, stack, vs, exact)
    ensures var b' := Base(stack, vs);
            stack == b' + BytesOf(vs) && |b| <= |b'| && b'[..|b|] == b && (exact ==> b' == b)
  {
    hide BytesOf;
    var b' := Base(stack, vs);
    assert stack == b' + stack[|stack| - |BytesOf(vs)|..];
  }

  /** Pending operands under a construct's results. */
  lemma AboveOver(b: seq<byte>, below: seq<Val>, stack: seq<byte>, vs: seq<Val>, exact: bool, junk: bool)
    requires Above(b + BytesOf(below), stack, vs, exact)
    requires !junk ==> exact
    requires below == [] || exact
    ensures Above(b, stack, below + vs, !junk)
  {
    hide BytesOf;
    BytesOfConcat(below, vs);
    BytesOfNone();
    var b' := b + BytesOf(below);
    if exact {
      assert stack == stack[..|b'|] + stack[|b'|..];
      assert stack == b + BytesOf(below + vs);
    } else {
      assert below + vs == vs;
      assert b' == b;
    }
  }

  lemma BytesOfNone()
    ensures BytesOf([]) == []
  {
  }

  /** The top n of the values on a stack. */
  lemma AboveLast(x: seq<byte>, b: seq<byte>, stack: seq<byte>, vs: seq<Val>, n: nat, exact: bool)
    requires n <= |vs|
    requires |b| <= |x| && x[..|b|] == b && stack == x + BytesOf(vs)
    requires exact ==> x == b && n == |vs|
    ensures Above(b, stack, Last(vs, n), exact)
  {
    hide BytesOf;
    assert vs == vs[..|vs| - n] + Last(vs, n);
    BytesOfConcat(vs[..|vs| - n], Last(vs, n));
    var y := x + BytesOf(vs[..|vs| - n]);
    assert stack == y + BytesOf(Last(vs, n));
    if exact { assert Last(vs, n) == vs; }
  }

  // ----- branches -----

  /** A branch the discipline allows carries its label's values. */
  lemma BranchCarries(c: Ctx, n: nat, b: seq<byte>, x: seq<byte>, stack: seq<byte>, vs: seq<Val>)
    requires CtxOk(c) && BranchOk(c, n, Types(vs)) && AllFit(vs)
    requires |b| <= |x| && x[..|b|] == b && (!c.junk ==> x == b) && stack == x + BytesOf(vs)
    ensures Carries(c, n, b, stack, vs)
  {
    hide BytesOf, Above;
    var l := c.labels[n];
    var k := |l.arity|;
    assert Types(Last(vs, k)) == Last(Types(vs), k);
    AboveLast(x, b, stack, vs, k, !l.loop && !l.junk);
  }

  /** A pending branch seen from outside the construct it leaves. */
  lemma CarriesOut(c: Ctx, pending: seq<Val>, loop: bool, results: seq<Width>, n: nat, b: seq<byte>, stack: seq<byte>,
      vs: seq<Val>)
    requires Carries(Inside(c, Types(pending), loop, results), n + 1, b + BytesOf(pending), stack, vs)
    ensures Carries(c, n, b, stack, vs)
  {
    hide BytesOf, Above;
    var l, i := c.labels[n], Inside(c, Types(pending), loop, results).labels[n + 1];
    assert i == l.(clean := l.clean && Types(pending) == []);
    BytesOfNone();
    assert pending == [] ==> b + BytesOf(pending) == b;
    assert (b + BytesOf(pending))[..|b|] == b;
    AboveTrans(b, b + BytesOf(pending), stack, Last(vs, |l.arity|), !l.loop && !l.junk);
  }

  lemma InsideOk(c: Ctx, pending: seq<Width>, loop: bool, results: seq<Width>)
    requires CtxOk(c)
    ensures CtxOk(Inside(c, pending, loop, results))
    ensures |Inside(c, pending, loop, results).labels| == |c.labels| + 1
    ensures Inside(c, pending, loop, results).locals == c.locals
  {
  }

  /** What holds before code runs on values vs over b. */
  ghost predicate Start(m: Module, p: Prog, bodies: seq<seq<Ins>>, c: Ctx, offsets: seq<nat>, b: seq<byte>, s: State,
      st: Store, vs: seq<Val>)
  {
    && Implements(m, bodies, p) && ProgOk(p) && CtxOk(c) && offsets == OffsetsOf(c.locals)
    && Holds(m, s, st, c.locals) && s.jump == 0 && AllFit(vs) && s.stack == b + BytesOf(vs)
  }

  // ----- the simulation -----

  /** Instruction sequences. */
  lemma {:induction false} SimSeq(m: Module, p: Prog, bodies: seq<seq<Ins>>, fuel: nat, c: Ctx, offsets: seq<nat>,
      ins: seq<Ins>,
      b: seq<byte>, s: State, st: Store, vs: seq<Val>)
    requires Start(m, p, bodies, c, offsets, b, s, st, vs)
    requires CheckSeq(p, c, ins, Types(vs)) != Bad
    ensures Agrees(m, c, b, C.RunSeq(m, bodies, fuel, offsets, ins, s), EvalSeq(p, fuel, ins, st, vs), CheckSeq(p, c, ins, Types(vs)))
    decreases fuel, LenSeq(ins), 3
  {
    hide Implements, ProgOk, Holds, BytesOf, Above, CheckOne, EvalOne, C.RunOne, Carries;
    if ins == [] {
      AboveExact(b, vs, !c.junk);
    } else {
      SimOne(m, p, bodies, fuel, c, offsets, ins[0], b, s, st, vs);
      match EvalOne(p, fuel, ins[0], st, vs)
      case Normal(st', vs') =>
        var s' := C.RunOne(m, bodies, fuel, offsets, ins[0], s).s;
        var b' := AboveBase(b, s'.stack, vs', !c.junk);
        SimSeq(m, p, bodies, fuel, c, offsets, ins[1..], b', s', st', vs');
        AgreesBelow(m, c, b, b', C.RunSeq(m, bodies, fuel, offsets, ins[1..], s'), EvalSeq(p, fuel, ins[1..], st', vs'),
                    CheckSeq(p, c, ins[1..], Types(vs')));
      case _ =>
    }
  }

  lemma AboveBase(b: seq<byte>, stack: seq<byte>, vs: seq<Val>, exact: bool) returns (b': seq<byte>)
    requires Above(b, stack, vs, exact)
    ensures stack == b' + BytesOf(vs) && |b| <= |b'| && b'[..|b|] == b && (exact ==> b' == b)
  {
    BaseOf(b, stack, vs, exact);
    b' := Base(stack, vs);
  }

  /** Agreement over a base with leftovers on it is agreement over the base. */
  lemma AgreesBelow(m: Module, c: Ctx, b: seq<byte>, b': seq<byte>, r: C.Run, o: Outcome, t: Typing)
    requires Agrees(m, c, b', r, o, t) && CtxOk(c)
    requires |b| <= |b'| && b'[..|b|] == b && (!c.junk ==> b' == b)
    ensures Agrees(m, c, b, r, o, t)
  {
    hide Holds, BytesOf, Above;
    match o
    case Normal(st, vs) => AboveTrans(b, b', r.s.stack, vs, !c.junk);
    case Jump(n, st, vs) => CarriesBelow(c, n, b, b', r.s.stack, vs);
    case Ret(st, vs) => CarriesBelow(c, |c.labels| - 1, b, b', r.s.stack, vs);
    case _ =>
  }

  lemma CarriesBelow(c: Ctx, n: nat, b: seq<byte>, b': seq<byte>, stack: seq<byte>, vs: seq<Val>)
    requires Carries(c, n, b', stack, vs) && CtxOk(c)
    requires |b| <= |b'| && b'[..|b|] == b && (!c.junk ==> b' == b)
    ensures Carries(c, n, b, stack, vs)
  {
    hide BytesOf, Above;
    var l := c.labels[n];
    AboveTrans(b, b', stack, Last(vs, |l.arity|), !l.loop && !l.junk);
  }

  lemma {:induction false} SimOne(m: Module, p: Prog, bodies: seq<seq<Ins>>, fuel: nat, c: Ctx, offsets: seq<nat>,
      i: Ins,
      b: seq<byte>, s: State, st: Store, vs: seq<Val>)
    requires Start(m, p, bodies, c, offsets, b, s, st, vs)
    requires CheckOne(p, c, i, Types(vs)) != Bad
    ensures Agrees(m, c, b, C.RunOne(m, bodies, fuel, offsets, i, s), EvalOne(p, fuel, i, st, vs), CheckOne(p, c, i, Types(vs)))
    decreases fuel, Len(i), 2
  {
    hide Start, Agrees, C.RunLeaf, EvalLeaf, CheckLeaf, C.RunFrame, EvalBody, BodyOk;
    match i
    case L(l) => SimLeaf(m, p, bodies, fuel, c, offsets, l, b, s, st, vs);
    case Block(loop, bt, body) =>
      SimConstruct(m, p, bodies, fuel, c, offsets, body, loop, BlockResults(bt), b, s, st, vs);
    case If(bt, thn, els) => SimIf(m, p, bodies, fuel, c, offsets, bt, thn, els, b, s, st, vs);
  }

  /** The condition, alone on the stack, becomes a leftover under the arm's results. */
  lemma {:induction false} SimIf(m: Module, p: Prog, bodies: seq<seq<Ins>>, fuel: nat, c: Ctx, offsets: seq<nat>,
      bt: byte,
      thn: seq<Ins>, els: seq<Ins>, b: seq<byte>, s: State, st: Store, vs: seq<Val>)
    requires Start(m, p, bodies, c, offsets, b, s, st, vs)
    requires CheckOne(p, c, If(bt, thn, els), Types(vs)) != Bad
    ensures Agrees(m, c, b, C.RunOne(m, bodies, fuel, offsets, If(bt, thn, els), s), EvalOne(p, fuel, If(bt, thn, els), st, vs),
                   CheckOne(p, c, If(bt, thn, els), Types(vs)))
    decreases fuel, Len(If(bt, thn, els)), 1
  {
    hide Implements, ProgOk, Holds, BytesOf, Above, Agrees, C.RunFrame, EvalBody, Carries, BodyOk, Top;
    var results := BlockResults(bt);
    assert |vs| == |Types(vs)| == 1 && Types(vs)[0] == vs[0].w == W32;
    OneOperand(b, vs);
    var b' := s.stack;
    assert vs[..0] == [];
    assert Types([]) == [];
    BytesOfNone();
    var arm := if vs[0].n != 0 then thn else els;
    assert b' + BytesOf([]) == b' && b'[..|b|] == b;
    SimConstruct(m, p, bodies, fuel, c, offsets, arm, false, results, b', s, st, []);
    AgreesBelow(m, c, b, b', C.RunFrame(m, bodies, fuel, offsets, arm, false, s),
                Over([], EvalBody(p, fuel, arm, false, |results|, st)), Live([] + results));
    assert [] + results == results;
  }

  /** A construct entered with operands vs pending. */
  lemma {:induction false} SimConstruct(m: Module, p: Prog, bodies: seq<seq<Ins>>, fuel: nat, c: Ctx,
      offsets: seq<nat>, body: seq<Ins>,
      loop: bool, results: seq<Width>, b: seq<byte>, s: State, st: Store, vs: seq<Val>)
    requires Start(m, p, bodies, c, offsets, b, s, st, vs)
    requires BodyOk(p, Inside(c, Types(vs), loop, results), body, results)
    ensures Agrees(m, c, b, C.RunFrame(m, bodies, fuel, offsets, body, loop, s), Over(vs, EvalBody(p, fuel, body, loop, |results|, st)),
                   Live(Types(vs) + results))
    decreases fuel, LenSeq(body), 5
  {
    hide Implements, ProgOk, Holds, BytesOf, Above, C.RunFrame, EvalBody, Carries, BodyOk;
    var inner := Inside(c, Types(vs), loop, results);
    SimBody(m, p, bodies, fuel, c, offsets, body, loop, results, b, s, st, vs);
    InsideOk(c, Types(vs), loop, results);
    var r := C.RunFrame(m, bodies, fuel, offsets, body, loop, s);
    match EvalBody(p, fuel, body, loop, |results|, st)
    case Normal(st', vs') =>
      AboveOver(b, vs, r.s.stack, vs', !inner.junk, c.junk);
      assert Types(vs + vs') == Types(vs) + Types(vs');
    case Jump(n, st', vs') => CarriesOut(c, vs, loop, results, n, b, r.s.stack, vs');
    case Ret(st', vs') => CarriesOut(c, vs, loop, results, |c.labels| - 1, b, r.s.stack, vs');
    case _ =>
  }

  /** A construct's outcome, still over the base its body ran on. */
  ghost predicate FrameAgrees(m: Module, c: Ctx, inner: Ctx, results: seq<Width>, b: seq<byte>, r: C.Run, o: Outcome)
  {
    match o
    case Normal(st, vs) =>
      r.Done? && r.s.jump == 0 && Holds(m, r.s, st, c.locals) && AllFit(vs) && Types(vs) == results
      && Above(b, r.s.stack, vs, !inner.junk)
    case Jump(n, st, vs) =>
      r.Done? && r.s.jump == n + 1 && Holds(m, r.s, st, c.locals) && Carries(inner, n + 1, b, r.s.stack, vs)
    case Ret(st, vs) =>
      r.Done? && r.s.jump < 0 && Holds(m, r.s, st, c.locals) && |c.labels| > 0 && Carries(inner, |c.labels|, b, r.s.stack, vs)
    case Trap => r == C.Stuck
    case NoFuel => r == C.NoFuel
    case Deviant => true
    case Wrong => false
  }

  /** The body of a construct, run again for every branch back to a loop's own label. */
  lemma {:induction false} SimBody(m: Module, p: Prog, bodies: seq<seq<Ins>>, fuel: nat, c: Ctx, offsets: seq<nat>,
      body: seq<Ins>,
      loop: bool, results: seq<Width>, b: seq<byte>, s: State, st: Store, vs: seq<Val>)
    requires Start(m, p, bodies, c, offsets, b, s, st, vs)
    requires BodyOk(p, Inside(c, Types(vs), loop, results), body, results)
    ensures FrameAgrees(m, c, Inside(c, Types(vs), loop, results), results, b + BytesOf(vs),
                        C.RunFrame(m, bodies, fuel, offsets, body, loop, s), EvalBody(p, fuel, body, loop, |results|, st))
    decreases fuel, LenSeq(body), 4
  {
    hide Implements, ProgOk, Holds, BytesOf, Above, EvalSeq, CheckSeq, C.RunSeq, Carries;
    var inner, b' := Inside(c, Types(vs), loop, results), s.stack;
    InsideOk(c, Types(vs), loop, results);
    BytesOfNone();
    assert b' + BytesOf([]) == b';
    assert Types([]) == [];
    SimSeq(m, p, bodies, fuel, inner, offsets, body, b', s, st, []);
    match EvalSeq(p, fuel, body, st, [])
    case Jump(n, st', vs') =>
      var s' := C.RunSeq(m, bodies, fuel, offsets, body, s).s;
      if n == 0 {
        CarriedToOwn(inner, b', s'.stack, vs');
        if loop && fuel > 0 {
          var s'' := s'.(jump := 0, stack := s'.stack[..|b'|]);
          HoldsIgnores(m, s', s'', st', c.locals);
          SimBody(m, p, bodies, fuel - 1, c, offsets, body, loop, results, b, s'', st', vs);
        } else {
          HoldsIgnores(m, s', C.ExitFrame(s'), st', c.locals);
        }
      } else {
        HoldsIgnores(m, s', C.ExitFrame(s'), st', c.locals);
      }
    case Ret(st', vs') =>
      var s' := C.RunSeq(m, bodies, fuel, offsets, body, s).s;
      HoldsIgnores(m, s', C.ExitFrame(s'), st', c.locals);
    case _ =>
  }

  lemma HoldsIgnores(m: Module, s: State, s': State, st: Store, locals: seq<Width>)
    requires Holds(m, s, st, locals) && s' == s.(jump := s'.jump, stack := s'.stack)
    ensures Holds(m, s', st, locals)
  {
  }

  /** A branch to the construct's own label: its results, or for a loop the stack of its entry. */
  lemma CarriedToOwn(inner: Ctx, b: seq<byte>, stack: seq<byte>, vs: seq<Val>)
    requires CtxOk(inner) && Carries(inner, 0, b, stack, vs)
    requires inner.labels[0].loop || inner.labels[0].junk == inner.junk
    ensures |stack| >= |b| && stack[..|b|] == b
    ensures var l := inner.labels[0];
            |vs| >= |l.arity| && Types(Last(vs, |l.arity|)) == l.arity && AllFit(Last(vs, |l.arity|))
            && (!l.loop ==> Above(b, stack, Last(vs, |l.arity|), !inner.junk))
  {
    hide BytesOf;
  }

  lemma {:induction false} SimLeaf(m: Module, p: Prog, bodies: seq<seq<Ins>>, fuel: nat, c: Ctx, offsets: seq<nat>,
      l: Leaf,
      b: seq<byte>, s: State, st: Store, vs: seq<Val>)
    requires Start(m, p, bodies, c, offsets, b, s, st, vs)
    requires CheckLeaf(p, c, l, Types(vs)) != Bad
    ensures Agrees(m, c, b, C.RunLeaf(m, bodies, fuel, offsets, l, s), EvalLeaf(p, fuel, l, st, vs), CheckLeaf(p, c, l, Types(vs)))
    decreases fuel, 0, 2
  {
    hide Implements, ProgOk, Holds, BytesOf, Above, Carries, EvalPlain, CheckPlain, StepPlain, CheckCall, EvalCall,
      C.RunCall, Top, BranchOk, Agrees, TableEntry;
    match l
    case P(q) => SimPlainLeaf(m, p, bodies, fuel, c, offsets, q, b, s, st, vs);
    case Br(n) => SimBranch(m, c, b, s, st, vs, n, CheckLeaf(p, c, l, Types(vs)));
    case Return => SimReturn(m, c, b, s, st, vs, CheckLeaf(p, c, l, Types(vs)));
    case BrIf(n) => SimBrIf(m, p, bodies, fuel, c, offsets, n, b, s, st, vs);
    case Call(f) => SimCall(m, p, bodies, fuel, c, offsets, f, b, s, st, vs, p.fns[f].value.params != [] || p.fns[f].value.junk);
    case CallIndirect(t) => SimIndirect(m, p, bodies, fuel, c, offsets, t, b, s, st, vs);
  }

  lemma SimPlainLeaf(m: Module, p: Prog, bodies: seq<seq<Ins>>, fuel: nat, c: Ctx, offsets: seq<nat>, q: Plain,
      b: seq<byte>, s: State, st: Store, vs: seq<Val>)
    requires Start(m, p, bodies, c, offsets, b, s, st, vs)
    requires CheckPlain(p, c, q, Types(vs)) != Bad
    ensures Agrees(m, c, b, C.RunLeaf(m, bodies, fuel, offsets, P(q), s), EvalPlain(q, st, vs), CheckPlain(p, c, q, Types(vs)))
  {
    hide Implements, ProgOk, BytesOf, Above, Carries, StepPlain, PlainEffect, PlainType;
    GlobalTypes(m, p, bodies, s, st, c.locals);
    var (ins, outs) := PlainType(q, c.locals, p.globals).value;
    var k := |ins|;
    var below, args := vs[..|vs| - k], Last(vs, k);
    assert Types(args) == Last(Types(vs), k);
    assert vs == below + args;
    BytesOfConcat(below, args);
    var x := b + BytesOf(below);
    assert s.stack == x + BytesOf(args);
    PlainSim(m, p, offsets, q, x, s, st, args);
    match PlainEffect(q, st, args)
    case Ok(st', out) =>
      var s' := StepPlain(m, offsets, q, s).value;
      UnreachableTraps(q, st, args);
      BytesOfConcat(below, out);
      assert s'.stack == b + BytesOf(below + out);
      AboveExact(b, below + out, !c.junk);
      assert Types(below + out) == Types(vs)[..|vs| - k] + outs;
    case _ =>
  }

  lemma UnreachableTraps(q: Plain, st: Store, args: seq<Val>)
    requires PlainType(q, Types(st.locals), Types(st.globals)).Some?
    requires Types(args) == PlainType(q, Types(st.locals), Types(st.globals)).value.0 && AllFit(args)
    requires PlainEffect(q, st, args).Ok?
    ensures !q.Unreachable?
  {
  }

  lemma GlobalTypes(m: Module, p: Prog, bodies: seq<seq<Ins>>, s: State, st: Store, locals: seq<Width>)
    requires Implements(m, bodies, p) && Holds(m, s, st, locals)
    ensures Types(st.globals) == p.globals
  {
  }

  lemma SimBranch(m: Module, c: Ctx, b: seq<byte>, s: State, st: Store, vs: seq<Val>, n: nat, t: Typing)
    requires CtxOk(c) && BranchOk(c, n, Types(vs)) && Holds(m, s, st, c.locals) && AllFit(vs)
      && s.stack == b + BytesOf(vs)
    ensures Agrees(m, c, b, C.Done(s.(jump := n + 1)), Jump(n, st, vs), t)
  {
    hide BytesOf, Above, Carries, BranchOk, Holds;
    BranchCarries(c, n, b, b, s.stack, vs);
    HoldsIgnores(m, s, s.(jump := n + 1), st, c.locals);
  }

  lemma SimReturn(m: Module, c: Ctx, b: seq<byte>, s: State, st: Store, vs: seq<Val>, t: Typing)
    requires |c.labels| > 0
    requires CtxOk(c) && BranchOk(c, |c.labels| - 1, Types(vs)) && Holds(m, s, st, c.locals) && AllFit(vs)
      && s.stack == b + BytesOf(vs)
    ensures Agrees(m, c, b, C.Done(s.(jump := -1)), Ret(st, vs), t)
  {
    hide BytesOf, Above, Carries, BranchOk, Holds;
    BranchCarries(c, |c.labels| - 1, b, b, s.stack, vs);
    HoldsIgnores(m, s, s.(jump := -1), st, c.locals);
  }

  /** Popping the 32-bit value on top. */
  lemma PopLast(b: seq<byte>, vs: seq<Val>)
    requires AllFit(vs) && EndsIn(Types(vs), [W32])
    ensures var s, k := b + BytesOf(vs), |vs| - 1;
            |s| >= 4 && vs[k].w == W32 && Top(s, W32) == vs[k].n && Rest(s, 4) == b + BytesOf(vs[..k])
            && Types(vs[..k]) == Types(vs)[..k] && AllFit(vs[..k])
  {
    hide Top, Rest;
    var k := |vs| - 1;
    assert Types(vs)[k] == Last(Types(vs), 1)[0] == W32;
    assert b + BytesOf(vs) == (b + BytesOf(vs[..k])) + ValBytes(vs[k]);
    PopTop(b + BytesOf(vs[..k]), vs[k]);
  }

  lemma SimBrIf(m: Module, p: Prog, bodies: seq<seq<Ins>>, fuel: nat, c: Ctx, offsets: seq<nat>, n: nat,
      b: seq<byte>, s: State, st: Store, vs: seq<Val>)
    requires Start(m, p, bodies, c, offsets, b, s, st, vs)
    requires CheckLeaf(p, c, BrIf(n), Types(vs)) != Bad
    ensures Agrees(m, c, b, C.RunLeaf(m, bodies, fuel, offsets, BrIf(n), s), EvalLeaf(p, fuel, BrIf(n), st, vs), CheckLeaf(p, c, BrIf(n), Types(vs)))
  {
    hide Implements, ProgOk, BytesOf, Above, Carries, BranchOk, Holds, Top, Rest;
    PopLast(b, vs);
    var k := |vs| - 1;
    var s' := s.(stack := Rest(s.stack, 4));
    HoldsIgnores(m, s, s', st, c.locals);
    if vs[k].n != 0 {
      SimBranch(m, c, b, s', st, vs[..k], n, CheckLeaf(p, c, BrIf(n), Types(vs)));
    } else {
      AboveExact(b, vs[..k], !c.junk);
    }
  }

  // ----- calls -----

  /** The callee starts with its arguments and zeros as locals, on a stack of its own over the caller's. */
  lemma CallStarts(m: Module, p: Prog, bodies: seq<seq<Ins>>, c: Ctx, offsets: seq<nat>, f: nat,
      b: seq<byte>, s: State, st: Store, vs: seq<Val>) returns (callee: Store)
    requires Start(m, p, bodies, c, offsets, b, s, st, vs)
    requires f < |p.fns| && p.fns[f].Some? && EndsIn(Types(vs), p.fns[f].value.params)
    ensures var fn := p.fns[f].value;
      && callee == st.(locals := Last(vs, |fn.params|) + ZeroVals(fn.locals))
      && CalleeLocals(m, f, s) == Some(BytesOf(callee.locals))
      && f < |m.fns| == |bodies| && bodies[f] == fn.body
      && Start(m, p, bodies, FnCtx(fn), m.fns[f].offsets, s.stack, s.(locals := BytesOf(callee.locals)), callee, [])
  {
    hide BytesOf, WidthsSize, ProgOk, TypesSize;
    var fn := p.fns[f].value;
    assert ImplementsFn(m.fns[f], bodies[f], p.fns[f]);
    var k := |fn.params|;
    var below, args := vs[..|vs| - k], Last(vs, k);
    assert Types(args) == fn.params;
    assert vs == below + args;
    BytesOfConcat(below, args);
    BytesOfLength(args);
    TypesSizeOfBytes(fn.params);
    CallLocals(args, fn.locals);
    BytesOfNone();
    callee := st.(locals := args + ZeroVals(fn.locals));
    assert s.stack[|s.stack| - |BytesOf(args)|..] == BytesOf(args);
    assert s.stack + BytesOf([]) == s.stack;
    assert AllFit(callee.locals);
  }

  lemma AboveWeaken(b: seq<byte>, stack: seq<byte>, vs: seq<Val>, exact: bool)
    requires Above(b, stack, vs, exact)
    ensures Above(b, stack, vs, false)
  {
  }

  /** The callee's results, over the caller's stack, become the caller's operands. */
  lemma CallEnds(m: Module, c: Ctx, fn: Fn, leaves: bool, b: seq<byte>, s: State, st: Store, vs: seq<Val>, s': State,
      st': Store, res: seq<Val>)
    requires CtxOk(c) && Holds(m, s, st, c.locals) && Holds(m, s', st', fn.params + fn.locals) && AllFit(vs)
      && AllFit(res)
    requires s.stack == b + BytesOf(vs) && Types(res) == fn.results
    requires CheckCall(c, fn.params, fn.results, leaves, Types(vs)) != Bad && (fn.params != [] || fn.junk ==> leaves)
    requires Above(s.stack, s'.stack, res, !fn.junk)
    ensures Agrees(m, c, b, C.Done(s'.(locals := s.locals, jump := 0)),
                   Normal(st'.(locals := st.locals), vs[..|vs| - |fn.params|] + res),
                   CheckCall(c, fn.params, fn.results, leaves, Types(vs)))
  {
    hide BytesOf, Above, Holds, Types;
    var below := vs[..|vs| - |fn.params|];
    TypesOver(vs, |fn.params|, res);
    HoldsRestored(m, s, st, c.locals, s', st', fn.params + fn.locals);
    CallEndsAbove(c, fn, leaves, b, s.stack, vs, s'.stack, res);
  }

  lemma TypesOver(vs: seq<Val>, k: nat, res: seq<Val>)
    requires k <= |vs| && AllFit(vs) && AllFit(res)
    ensures Types(vs[..|vs| - k] + res) == Types(vs)[..|vs| - k] + Types(res)
    ensures AllFit(vs[..|vs| - k] + res)
  {
  }

  lemma CallEndsAbove(c: Ctx, fn: Fn, leaves: bool, b: seq<byte>, stack: seq<byte>, vs: seq<Val>, stack': seq<byte>,
      res: seq<Val>)
    requires stack == b + BytesOf(vs) && CheckCall(c, fn.params, fn.results, leaves, Types(vs)) != Bad
    requires fn.params != [] || fn.junk ==> leaves
    requires Above(stack, stack', res, !fn.junk)
    ensures Above(b, stack', vs[..|vs| - |fn.params|] + res, !c.junk)
  {
    hide BytesOf, Above;
    var below := vs[..|vs| - |fn.params|];
    if leaves {
      assert stack[..|b|] == b;
      assert below + res == res;
      AboveWeaken(stack, stack', res, !fn.junk);
      AboveTrans(b, stack, stack', res, false);
    } else {
      assert below == vs;
      AboveOver(b, below, stack', res, true, c.junk);
    }
  }

  /** The caller's locals come back; the callee's effect on globals and memory stays. */
  lemma HoldsRestored(m: Module, s: State, st: Store, locals: seq<Width>, s': State, st': Store, locals': seq<Width>)
    requires Holds(m, s, st, locals) && Holds(m, s', st', locals')
    ensures Holds(m, s'.(locals := s.locals, jump := 0), st'.(locals := st.locals), locals)
  {
  }

  lemma {:induction false} SimCall(m: Module, p: Prog, bodies: seq<seq<Ins>>, fuel: nat, c: Ctx, offsets: seq<nat>,
      f: nat,
      b: seq<byte>, s: State, st: Store, vs: seq<Val>, leaves: bool)
    requires Start(m, p, bodies, c, offsets, b, s, st, vs)
    requires f < |p.fns| && p.fns[f].Some?
    requires var fn := p.fns[f].value;
             CheckCall(c, fn.params, fn.results, leaves, Types(vs)) != Bad && (fn.params != [] || fn.junk ==> leaves)
    ensures Agrees(m, c, b, C.RunCall(m, bodies, fuel, f, s), EvalCall(p, fuel, f, st, vs),
                   CheckCall(c, p.fns[f].value.params, p.fns[f].value.results, leaves, Types(vs)))
    decreases fuel, 0, 0
  {
    hide BytesOf, Above, Holds, Implements, CalleeLocals, C.RunSeq, EvalSeq, CheckSeq;
    var fn := p.fns[f].value;
    var k := |fn.params|;
    assert Types(Last(vs, k)) == Last(Types(vs), k);
    var callee := CallStarts(m, p, bodies, c, offsets, f, b, s, st, vs);
    if fuel > 0 {
      var s0 := s.(locals := BytesOf(callee.locals));
      assert FnOk(p, fn);
      assert Types([]) == [];
      SimSeq(m, p, bodies, fuel - 1, FnCtx(fn), m.fns[f].offsets, fn.body, s.stack, s0, callee, []);
      var r := C.RunSeq(m, bodies, fuel - 1, m.fns[f].offsets, fn.body, s0);
      match EvalSeq(p, fuel - 1, fn.body, callee, [])
      case Normal(st', vs') => CallEnds(m, c, fn, leaves, b, s, st, vs, r.s, st', vs');
      case Jump(n, st', vs') =>
        AllFitLast(vs', |fn.results|);
        CallEnds(m, c, fn, leaves, b, s, st, vs, r.s, st', Last(vs', |fn.results|));
      case Ret(st', vs') =>
        AllFitLast(vs', |fn.results|);
        CallEnds(m, c, fn, leaves, b, s, st, vs, r.s, st', Last(vs', |fn.results|));
      case _ =>
    }
  }

  lemma AllFitLast(vs: seq<Val>, n: nat)
    requires n <= |vs| && AllFit(vs)
    ensures AllFit(Last(vs, n))
  {
  }

  lemma {:induction false} SimIndirect(m: Module, p: Prog, bodies: seq<seq<Ins>>, fuel: nat, c: Ctx, offsets: seq<nat>,
      t: nat,
      b: seq<byte>, s: State, st: Store, vs: seq<Val>)
    requires Start(m, p, bodies, c, offsets, b, s, st, vs)
    requires CheckLeaf(p, c, CallIndirect(t), Types(vs)) != Bad
    ensures Agrees(m, c, b, C.RunLeaf(m, bodies, fuel, offsets, CallIndirect(t), s), EvalLeaf(p, fuel, CallIndirect(t), st, vs),
                   CheckLeaf(p, c, CallIndirect(t), Types(vs)))
    decreases fuel, 0, 1
  {
    hide ProgOk, BytesOf, Above, Carries, Holds, Top, Rest, C.RunCall, EvalCall, CheckCall, Agrees;
    PopLast(b, vs);
    var k := |vs| - 1;
    var s' := s.(stack := Rest(s.stack, 4));
    HoldsIgnores(m, s, s', st, c.locals);
    var e := vs[k].n;
    if e < |p.table| && p.table[e].Some? {
      var f := p.table[e].value;
      if f < |p.fns| && p.fns[f].Some? && (p.fns[f].value.params, p.fns[f].value.results) == p.types[t] {
        SimCall(m, p, bodies, fuel, c, offsets, f, b, s', st, vs[..k], true);
      } else {
        AgreesDeviant(m, c, b, C.RunLeaf(m, bodies, fuel, offsets, CallIndirect(t), s), CheckLeaf(p, c, CallIndirect(t), Types(vs)));
      }
    } else {
      AgreesTrap(m, c, b, CheckLeaf(p, c, CallIndirect(t), Types(vs)));
    }
  }

  lemma AgreesDeviant(m: Module, c: Ctx, b: seq<byte>, r: C.Run, t: Typing)
    ensures Agrees(m, c, b, r, Deviant, t)
  {
  }

  lemma AgreesTrap(m: Module, c: Ctx, b: seq<byte>, t: Typing)
    ensures Agrees(m, c, b, C.Stuck, Trap, t)
  {
  }
}
