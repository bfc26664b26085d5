/** What a call leaves on the interpreter's stack, and what call_indirect does not check. */
module Calls {
  import opened Bytes
  import opened Isa
  import opened Alu
  import opened Machine
  import opened Wasm
  import opened Discipline
  import opened Layout
  import opened Simulation
  import opened Preservation
  import opened Deviations
  import C = Control

  // ----- arguments stay -----

  /** What a call leaves: everything it found, its arguments too, and its results on top. */
  ghost predicate Leaves(m: Module, c: Ctx, arity: nat, s: State, r: C.Run, o: Outcome)
  {
    match o
    case Normal(st, vs) =>
      r.Done? && r.s.jump == 0 && Holds(m, r.s, st, c.locals) && arity <= |vs|
      && r.s.stack == s.stack + BytesOf(Last(vs, arity))
    case Trap => r == C.Stuck
    case NoFuel => r == C.NoFuel
    case Deviant => true
    case _ => false
  }

  /**
   A call of a function that leaves nothing itself, wherever it stands: the arguments stay under the results, whatever
   other operands are pending.
   */
  lemma CallLeaves(m: Module, p: Prog, bodies: seq<seq<Ins>>, fuel: nat, c: Ctx, offsets: seq<nat>, f: nat,
      b: seq<byte>, s: State, st: Store, vs: seq<Val>)
    requires Start(m, p, bodies, c, offsets, b, s, st, vs)
    requires f < |p.fns| && p.fns[f].Some? && EndsIn(Types(vs), p.fns[f].value.params) && !p.fns[f].value.junk
    ensures Leaves(m, c, |p.fns[f].value.results|, s, C.RunCall(m, bodies, fuel, f, s), EvalCall(p, fuel, f, st, vs))
  {
    hide BytesOf, Above, Holds, Implements, CalleeLocals, C.RunSeq, EvalSeq, CheckSeq;
    var fn := p.fns[f].value;
    var k := |fn.params|;
    assert Types(Last(vs, k)) == Last(Types(vs), k);
    var callee := CallStarts(m, p, bodies, c, offsets, f, b, s, st, vs);
    if fuel > 0 {
      var s0 := s.(locals := BytesOf(callee.locals));
      assert FnOk(p, fn);
      assert Types([]) == [];
      SimSeq(m, p, bodies, fuel - 1, FnCtx(fn), m.fns[f].offsets, fn.body, s.stack, s0, callee, []);
      var r := C.RunSeq(m, bodies, fuel - 1, m.fns[f].offsets, fn.body, s0);
      match EvalSeq(p, fuel - 1, fn.body, callee, [])
      case Normal(st', vs') => ResultsOver(m, c, fn, s, st, vs, r.s, st', vs');
      case Jump(n, st', vs') => ResultsOver(m, c, fn, s, st, vs, r.s, st', Last(vs', |fn.results|));
      case Ret(st', vs') => ResultsOver(m, c, fn, s, st, vs, r.s, st', Last(vs', |fn.results|));
      case _ =>
    }
  }

  lemma ResultsOver(m: Module, c: Ctx, fn: Fn, s: State, st: Store, vs: seq<Val>, s': State, st': Store, res: seq<Val>)
    requires Holds(m, s, st, c.locals) && Holds(m, s', st', fn.params + fn.locals)
    requires |fn.params| <= |vs| && |res| == |fn.results| && Above(s.stack, s'.stack, res, true)
    ensures Leaves(m, c, |fn.results|, s, C.Done(s'.(locals := s.locals, jump := 0)),
                   Normal(st'.(locals := st.locals), vs[..|vs| - |fn.params|] + res))
  {
    hide BytesOf, Holds;
    HoldsRestored(m, s, st, c.locals, s', st', fn.params + fn.locals);
    assert Last(vs[..|vs| - |fn.params|] + res, |fn.results|) == res;
    assert s'.stack == s.stack + BytesOf(res);
  }

  /** So the stack is the standard's after a call exactly if the function takes no arguments. */
  lemma CallExactIff(m: Module, p: Prog, bodies: seq<seq<Ins>>, fuel: nat, c: Ctx, offsets: seq<nat>, f: nat,
      b: seq<byte>, s: State, st: Store, vs: seq<Val>)
    requires Start(m, p, bodies, c, offsets, b, s, st, vs)
    requires f < |p.fns| && p.fns[f].Some? && EndsIn(Types(vs), p.fns[f].value.params) && !p.fns[f].value.junk
    requires EvalCall(p, fuel, f, st, vs).Normal?
    ensures C.RunCall(m, bodies, fuel, f, s).Done?
    ensures C.RunCall(m, bodies, fuel, f, s).s.stack == b + BytesOf(EvalCall(p, fuel, f, st, vs).stack)
      <==> p.fns[f].value.params == []
  {
    hide C.RunCall, EvalCall, Holds, Implements, ProgOk;
    CallLeaves(m, p, bodies, fuel, c, offsets, f, b, s, st, vs);
    var fn, o := p.fns[f].value, EvalCall(p, fuel, f, st, vs);
    CallKeepsBelow(p, fuel, f, st, vs);
    var k, res := |fn.params|, Last(o.stack, |fn.results|);
    var below, args := vs[..|vs| - k], Last(vs, k);
    assert vs == below + args;
    BytesOfConcat(below, args);
    BytesOfConcat(below, res);
    SomeBytes(args);
    var x, y, z := BytesOf(below), BytesOf(args), BytesOf(res);
    assert C.RunCall(m, bodies, fuel, f, s).s.stack == b + (x + y) + z;
    if k == 0 { assert b + (x + y) + z == b + (x + z); }
  }

  lemma SomeBytes(vs: seq<Val>)
    ensures |BytesOf(vs)| == 0 <==> vs == []
  {
    if vs != [] {
      var v := vs[|vs| - 1];
      assert vs == vs[..|vs| - 1] + [v];
      BytesOfConcat(vs[..|vs| - 1], [v]);
      BytesOfOne(v);
    }
  }

  lemma CallKeepsBelow(p: Prog, fuel: nat, f: nat, st: Store, vs: seq<Val>)
    requires f < |p.fns| && p.fns[f].Some?
    ensures var fn, o := p.fns[f].value, EvalCall(p, fuel, f, st, vs);
      o.Normal? ==>
        && |fn.params| <= |vs| && |fn.results| <= |o.stack|
        && o.stack == vs[..|vs| - |fn.params|] + Last(o.stack, |fn.results|)
  {
    hide EvalSeq;
  }

  /** In the standard, what lies below the arguments makes no difference and stays. */
  lemma CallOnTop(p: Prog, fuel: nat, f: nat, st: Store, below: seq<Val>, args: seq<Val>)
    requires f < |p.fns| && p.fns[f].Some? && |args| == |p.fns[f].value.params|
    ensures EvalCall(p, fuel, f, st, below + args) == Over(below, EvalCall(p, fuel, f, st, args))
  {
    hide EvalSeq;
    var k := |args|;
    assert Last(below + args, k) == Last(args, k) == args;
    assert (below + args)[..|below + args| - k] == below && args[..|args| - k] == [];
    forall vs: seq<Val> ensures below + ([] + vs) == below + vs { assert [] + vs == vs; }
  }

  /** a pending, then a call of f on b, then an addition, as in a + f(b). */
  ghost function AddCall(a: u32, b: u32, f: nat): seq<Ins>
  {
    [Number(a), Number(b), L(Leaf.Call(f)), ADD]
  }

  /**
   A call under a pending operand, of any function from one i32 to one i32: where the callee returns r, the standard
   adds r to the operand, the machine to the argument it left on the stack. They agree exactly when the two are equal.
   */
  lemma CallUnderOperand(m: Module, p: Prog, bodies: seq<seq<Ins>>, fuel: nat, c: Ctx, offsets: seq<nat>, f: nat,
      a: u32, b: u32, r: u32, s: State, st: Store, st': Store)
    requires Start(m, p, bodies, c, offsets, s.stack, s, st, [])
    requires f < |p.fns| && p.fns[f].Some?
    requires var fn := p.fns[f].value; fn.params == [W32] && fn.results == [W32] && !fn.junk
    requires EvalCall(p, fuel, f, st, [Val(W32, b)]) == Normal(st', [Val(W32, r)])
    ensures EvalSeq(p, fuel, AddCall(a, b, f), st, []) == Normal(st', [Val(W32, Sum(a, r))])
    ensures var run := C.RunSeq(m, bodies, fuel, offsets, AddCall(a, b, f), s);
      && run.Done? && run.s.jump == 0 && Holds(m, run.s, st', c.locals)
      && run.s.stack == s.stack + Word(a) + Word(Sum(b, r))
    ensures Sum(a, r) == Sum(b, r) <==> a == b
  {
    hide C.RunSeq, EvalSeq, Start, AddCall, EvalCall;
    CallMachine(m, p, bodies, fuel, c, offsets, f, a, b, r, s, st, st');
    CallStandard(p, fuel, f, a, b, r, st, st');
  }

  lemma CallStandard(p: Prog, fuel: nat, f: nat, a: u32, b: u32, r: u32, st: Store, st': Store)
    requires f < |p.fns| && p.fns[f].Some? && |p.fns[f].value.params| == 1
    requires EvalCall(p, fuel, f, st, [Val(W32, b)]) == Normal(st', [Val(W32, r)])
    ensures EvalSeq(p, fuel, AddCall(a, b, f), st, []) == Normal(st', [Val(W32, Sum(a, r))])
  {
    hide EvalPlain, EvalOne, PlainEffect, PlainType, Types, EvalSeq, EvalCall;
    var ins := AddCall(a, b, f);
    assert ins[0] == Number(a) && ins[1..][0] == Number(b) && ins[2..][0] == L(Leaf.Call(f));
    assert ins[1..][1..] == ins[2..] && ins[2..][1..] == ins[3..] == [ADD];
    var v1, v2, v3 := [Val(W32, a)], [Val(W32, a), Val(W32, b)], [Val(W32, a), Val(W32, r)];
    EvalNumber(p, fuel, a, st, []);
    assert [] + [Val(W32, a)] == v1;
    EvalStep(p, fuel, ins, st, []);
    EvalNumber(p, fuel, b, st, v1);
    assert v1 + [Val(W32, b)] == v2 && v1 + [Val(W32, r)] == v3;
    EvalStep(p, fuel, ins[1..], st, v1);
    CallOnTop(p, fuel, f, st, v1, [Val(W32, b)]);
    EvalsCall(p, fuel, f, st, v2);
    EvalStep(p, fuel, ins[2..], st, v2);
    AddEvals(p, fuel, a, r, st');
    EvalLast(p, fuel, ADD, st', v3);
  }

  lemma EvalsCall(p: Prog, fuel: nat, f: nat, st: Store, vs: seq<Val>)
    requires f < |p.fns| && p.fns[f].Some?
    ensures EvalOne(p, fuel, L(Leaf.Call(f)), st, vs) == EvalCall(p, fuel, f, st, vs)
  {
    hide EvalCall;
  }

  lemma AddEvals(p: Prog, fuel: nat, i: u32, j: u32, st: Store)
    ensures EvalOne(p, fuel, ADD, st, [Val(W32, i), Val(W32, j)]) == Normal(st, [Val(W32, Sum(i, j))])
  {
    hide EvalPlain, PlainEffect, PlainType, Types;
    AddEffect(i, j, st);
    EvalWhole(ADD.l.p, st, [Val(W32, i), Val(W32, j)], [W32, W32], [W32], st, [Val(W32, Sum(i, j))]);
  }

  lemma CallMachine(m: Module, p: Prog, bodies: seq<seq<Ins>>, fuel: nat, c: Ctx, offsets: seq<nat>, f: nat,
      a: u32, b: u32, r: u32, s: State, st: Store, st': Store)
    requires Start(m, p, bodies, c, offsets, s.stack, s, st, [])
    requires f < |p.fns| && p.fns[f].Some?
    requires var fn := p.fns[f].value; fn.params == [W32] && fn.results == [W32] && !fn.junk
    requires EvalCall(p, fuel, f, st, [Val(W32, b)]) == Normal(st', [Val(W32, r)])
    ensures var run := C.RunSeq(m, bodies, fuel, offsets, AddCall(a, b, f), s);
      && run.Done? && run.s.jump == 0 && Holds(m, run.s, st', c.locals)
      && run.s.stack == s.stack + Word(a) + Word(Sum(b, r))
  {
    hide C.RunOne, C.RunSeq, Holds, Implements, ProgOk, EvalCall, Word, BytesOf;
    var ins := AddCall(a, b, f);
    assert ins[1..][1..] == ins[2..] && ins[2..][1..] == ins[3..] == [ADD] && ins[1..][0] == Number(b);
    var s1 := s.(stack := s.stack + Word(a));
    var s2 := s1.(stack := s1.stack + Word(b));
    RunNumber(m, bodies, fuel, offsets, a, s);
    RunStep(m, bodies, fuel, offsets, ins, s);
    RunNumber(m, bodies, fuel, offsets, b, s1);
    RunStep(m, bodies, fuel, offsets, ins[1..], s1);
    HoldsIgnores(m, s, s2, st, c.locals);
    WordBytes(b);
    WordBytes(r);
    OneIsOne(b);
    CallLeaves(m, p, bodies, fuel, c, offsets, f, s1.stack, s2, st, [Val(W32, b)]);
    RunsCall(m, bodies, fuel, offsets, f, s2);
    RunStep(m, bodies, fuel, offsets, ins[2..], s2);
    var s3 := C.RunCall(m, bodies, fuel, f, s2).s;
    assert Last([Val(W32, r)], 1) == [Val(W32, r)];
    RunAdd(m, bodies, fuel, offsets, s1.stack, b, r, s3);
    RunLast(m, bodies, fuel, offsets, ADD, s3);
    HoldsIgnores(m, s3, s3.(stack := s1.stack + Word(Sum(b, r))), st', c.locals);
  }

  /** For example the identity: where the standard gives a + b, the machine gives b + b. */
  lemma IdentityUnderOperand(m: Module, p: Prog, bodies: seq<seq<Ins>>, fuel: nat, c: Ctx, offsets: seq<nat>, f: nat,
      a: u32, b: u32, s: State, st: Store)
    requires Start(m, p, bodies, c, offsets, s.stack, s, st, [])
    requires f < |p.fns| && p.fns[f] == Some(Fn([W32], [W32], [], [L(P(Plain.LocalGet(0)))], false))
    ensures EvalSeq(p, fuel + 1, AddCall(a, b, f), st, []) == Normal(st, [Val(W32, Sum(a, b))])
    ensures var run := C.RunSeq(m, bodies, fuel + 1, offsets, AddCall(a, b, f), s);
      run.Done? && run.s.stack == s.stack + Word(a) + Word(Sum(b, b))
  {
    hide C.RunSeq, EvalSeq, Start, AddCall, EvalCall;
    IdentityReturns(p, fuel, f, b, st);
    CallUnderOperand(m, p, bodies, fuel + 1, c, offsets, f, a, b, b, s, st, st);
  }

  lemma IdentityReturns(p: Prog, fuel: nat, f: nat, b: u32, st: Store)
    requires f < |p.fns| && p.fns[f] == Some(Fn([W32], [W32], [], [L(P(Plain.LocalGet(0)))], false))
    ensures EvalCall(p, fuel + 1, f, st, [Val(W32, b)]) == Normal(st, [Val(W32, b)])
  {
    hide EvalSeq;
    var fn, v := p.fns[f].value, [Val(W32, b)];
    var callee := st.(locals := Last(v, 1) + ZeroVals([]));
    assert Types(v) == [W32];
    IdentityBody(p, fuel, b, callee);
    assert |v| == |fn.params| && Last(v, |fn.params|) + ZeroVals(fn.locals) == callee.locals;
    assert v[..0] + v == v && callee.(locals := st.locals) == st;
  }

  lemma IdentityBody(p: Prog, fuel: nat, b: u32, st: Store)
    requires st.locals == [Val(W32, b)]
    ensures EvalSeq(p, fuel, [L(P(Plain.LocalGet(0)))], st, []) == Normal(st, [Val(W32, b)])
  {
    hide EvalSeq;
    var q, i := Plain.LocalGet(0), L(P(Plain.LocalGet(0)));
    assert Types(st.locals) == [W32] && Types([]) == [];
    assert EvalOne(p, fuel, i, st, []) == EvalPlain(q, st, []);
    EvalWhole(q, st, [], [], [W32], st, [Val(W32, b)]);
    EvalLast(p, fuel, i, st, []);
  }

  lemma WordBytes(v: u32)
    ensures BytesOf([Val(W32, v)]) == Word(v) && AllFit([Val(W32, v)])
  {
    BytesOfOne(Val(W32, v));
  }

  lemma OneIsOne(v: u32)
    ensures EndsIn(Types([Val(W32, v)]), [W32])
  {
  }

  lemma RunsCall(m: Module, bodies: seq<seq<Ins>>, fuel: nat, offsets: seq<nat>, f: nat, s: State)
    ensures C.RunOne(m, bodies, fuel, offsets, L(Leaf.Call(f)), s) == C.RunCall(m, bodies, fuel, f, s)
  {
  }

  // ----- call_indirect -----

  /**
   The standard's call_indirect on entry e of the table (section 4.4.5): an entry of another type traps. Imported
   functions are not part of the model.
   */
  ghost function StdIndirect(p: Prog, fuel: nat, t: nat, st: Store, vs: seq<Val>): Outcome
  {
    if |vs| < 1 || vs[|vs| - 1].w != W32 || t >= |p.types| then Wrong
    else
      var e := vs[|vs| - 1].n;
      if e >= |p.table| || p.table[e].None? then Trap
      else
        var f := p.table[e].value;
        if f >= |p.fns| || p.fns[f].None? then Deviant
        else if (p.fns[f].value.params, p.fns[f].value.results) != p.types[t] then Trap
        else EvalCall(p, fuel, f, st, vs[..|vs| - 1])
  }

  /** Where the types are equal it is what the simulation is about. */
  lemma StdIndirectIs(p: Prog, fuel: nat, t: nat, st: Store, vs: seq<Val>)
    ensures EvalLeaf(p, fuel, CallIndirect(t), st, vs) == StdIndirect(p, fuel, t, st, vs)
      || EvalLeaf(p, fuel, CallIndirect(t), st, vs).Deviant?
  {
    hide EvalCall;
  }

  /**
   call_indirect with any type on a function without parameters that returns: the machine runs it, whatever the type.
   The standard traps exactly when the type is another one.
   */
  lemma IndirectIff(m: Module, p: Prog, bodies: seq<seq<Ins>>, fuel: nat, c: Ctx, offsets: seq<nat>, t: nat, e: u32,
      f: nat, s: State, st: Store, st': Store, res: seq<Val>)
    requires Start(m, p, bodies, c, offsets, s.stack, s, st, [])
    requires e < |p.table| && p.table[e] == Some(f) && t < |p.types| && f < |p.fns| && p.fns[f].Some?
    requires p.fns[f].value.params == [] && !p.fns[f].value.junk && EvalCall(p, fuel, f, st, []) == Normal(st', res)
    ensures var run := C.RunSeq(m, bodies, fuel, offsets, [Number(e), L(CallIndirect(t))], s);
      && run.Done? && run.s.jump == 0 && Holds(m, run.s, st', c.locals) && run.s.stack == s.stack + BytesOf(res)
    ensures var o := StdIndirect(p, fuel, t, st, [Val(W32, e)]);
      && (o == Normal(st', res) <==> p.types[t] == ([], p.fns[f].value.results))
      && (o == Trap <==> p.types[t] != ([], p.fns[f].value.results))
  {
    hide C.RunOne, C.RunSeq, C.RunCall, ProgOk, EvalCall, Word, BytesOf, Holds;
    assert [Val(W32, e)][..0] == [];
    assert m.table[e] == f && f != NO_FUNC && |m.table| == |p.table|;
    NoParams();
    CallLeaves(m, p, bodies, fuel, c, offsets, f, s.stack, s, st, []);
    CallKeepsBelow(p, fuel, f, st, []);
    assert res == Last(res, |p.fns[f].value.results|);
    IndirectMachine(m, bodies, fuel, offsets, t, e, f, s);
  }

  lemma IndirectMachine(m: Module, bodies: seq<seq<Ins>>, fuel: nat, offsets: seq<nat>, t: nat, e: u32, f: nat, s: State)
    requires e < |m.table| && m.table[e] == f && f != NO_FUNC && s.jump == 0
    ensures var run := C.RunCall(m, bodies, fuel, f, s);
      run.Done? ==> C.RunSeq(m, bodies, fuel, offsets, [Number(e), L(CallIndirect(t))], s) == run
  {
    hide C.RunOne, C.RunSeq, C.RunCall, Word;
    var ins := [Number(e), L(CallIndirect(t))];
    var s1 := s.(stack := s.stack + Word(e));
    RunNumber(m, bodies, fuel, offsets, e, s);
    RunStep(m, bodies, fuel, offsets, ins, s);
    assert ins[1..] == [L(CallIndirect(t))];
    RunsIndirect(m, bodies, fuel, offsets, t, e, f, s.stack, s1);
    assert s1.(stack := s.stack) == s;
    RunLast(m, bodies, fuel, offsets, L(CallIndirect(t)), s1);
  }

  lemma NoParams()
    ensures EndsIn(Types([]), []) && AllFit([])
  {
  }

  lemma RunsIndirect(m: Module, bodies: seq<seq<Ins>>, fuel: nat, offsets: seq<nat>, t: nat, e: u32, f: nat,
      x: seq<byte>, s: State)
    requires s.stack == x + Word(e) && e < |m.table| && m.table[e] == f && f != NO_FUNC
    ensures C.RunOne(m, bodies, fuel, offsets, L(CallIndirect(t)), s)
      == C.RunCall(m, bodies, fuel, f, s.(stack := x))
  {
    hide Top, Rest, Word, C.RunCall;
    TopWord(x, e);
  }
}
