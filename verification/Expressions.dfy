/** Folded integer expressions as trees: their value, and what running their emitted bytes does. */
module Expressions {
  import opened Bytes
  import opened Leb
  import opened Isa
  import opened Alu
  import opened Machine
  import opened Wasm
  import opened Layout
  import opened Simulation
  import C = Control
  import E = Emission
  import A = Assembler
  import S = Source

  /** The types of the values a tree yields; None: not an expression over plain instructions, or ill-typed. */
  function TypeOf(a: A.Names, x: S.Ast, locals: seq<Width>, globals: seq<Width>): Option<seq<Width>>
    requires S.AstOk(x)
    decreases x
  {
    if !x.Node? || !S.TakesAll(x.op, x.args) then None
    else
      match (S.LeafOf(a, [], x.op), TypesOf(a, x.args, locals, globals))
      case (Some(P(p)), Some(ts)) =>
        (match PlainType(p, locals, globals)
         case Some((ins, outs)) => if ts == ins then Some(outs) else None
         case None => None)
      case _ => None
  }

  function TypesOf(a: A.Names, xs: seq<S.Ast>, locals: seq<Width>, globals: seq<Width>): Option<seq<Width>>
    requires S.SeqOk(xs)
    decreases xs
  {
    if xs == [] then Some([])
    else
      match (TypeOf(a, xs[0], locals, globals), TypesOf(a, xs[1..], locals, globals))
      case (Some(ts), Some(us)) => Some(ts + us)
      case _ => None
  }

  /** The values a tree yields and the store after it. */
  datatype Tree = Yields(st: Wasm.Store, vs: seq<Val>) | Trapping | Deviating | Ill

  /** A tree's meaning, from its children's, left to right; there is no stack in it. */
  function Value(a: A.Names, x: S.Ast, st: Wasm.Store): Tree
    requires S.AstOk(x)
    decreases x
  {
    if !x.Node? then Ill
    else
      match (S.LeafOf(a, [], x.op), Values(a, x.args, st))
      case (Some(P(p)), Yields(st', vs)) => Apply(p, st', vs)
      case (_, Yields(_, _)) => Ill
      case (_, other) => other
  }

  function Values(a: A.Names, xs: seq<S.Ast>, st: Wasm.Store): Tree
    requires S.SeqOk(xs)
    decreases xs
  {
    if xs == [] then Yields(st, [])
    else
      match Value(a, xs[0], st)
      case Yields(st', vs) => Prepend(vs, Values(a, xs[1..], st'))
      case other => other
  }

  function Prepend(vs: seq<Val>, rest: Tree): Tree
  {
    match rest case Yields(st, ws) => Yields(st, vs + ws) case other => other
  }

  function Apply(p: Plain, st: Wasm.Store, vs: seq<Val>): Tree
  {
    match PlainType(p, Types(st.locals), Types(st.globals))
    case None => Ill
    case Some((ins, _)) =>
      if Types(vs) != ins || !AllFit(vs) then Ill
      else
        match PlainEffect(p, st, vs)
        case Ok(st', out) => Yields(st', out)
        case Traps => Trapping
        case Deviates => Deviating
  }

  /** The machine's run of a tree's code: the tree's values, of its types, on top of an untouched stack. */
  ghost predicate Pushes(m: Module, s: State, r: C.Run, v: Tree, ts: seq<Width>, locals: seq<Width>)
  {
    match v
    case Yields(st, vs) =>
      && r.Done? && r.s.jump == 0 && Holds(m, r.s, st, locals) && AllFit(vs) && Types(vs) == ts
      && r.s.stack == s.stack + BytesOf(vs)
    case Trapping => r == C.Stuck
    case Deviating => true
    case Ill => false
  }

  /** The globals' types, fixed by the module. */
  function GlobalWidths(m: Module): (r: seq<Width>)
    ensures |r| == |m.gtypes|
  {
    seq(|m.gtypes|, i requires 0 <= i < |m.gtypes| => WidthOf(m.gtypes[i]))
  }

  lemma HoldsTypes(m: Module, s: State, st: Wasm.Store, locals: seq<Width>)
    requires Holds(m, s, st, locals)
    ensures Types(st.locals) == locals && Types(st.globals) == GlobalWidths(m)
  {
  }

  lemma {:induction false} RunConcat(m: Module, bodies: seq<seq<Ins>>, fuel: nat, offsets: seq<nat>, a: seq<Ins>,
      b: seq<Ins>, s: State)
    requires s.jump == 0
    ensures var r := C.RunSeq(m, bodies, fuel, offsets, a, s);
      C.RunSeq(m, bodies, fuel, offsets, a + b, s) == if r.Done? && r.s.jump == 0 then C.RunSeq(m, bodies, fuel, offsets, b, r.s) else r
    decreases |a|
  {
    hide C.RunOne;
    if a == [] {
      assert a + b == b;
    } else {
      assert (a + b)[1..] == a[1..] + b;
      match C.RunOne(m, bodies, fuel, offsets, a[0], s)
      case Done(s') => if s'.jump == 0 { RunConcat(m, bodies, fuel, offsets, a[1..], b, s'); }
      case _ =>
    }
  }

  /** Plain instructions do not look at labels. */
  lemma PlainLeaf(a: A.Names, labels: A.Labels, op: S.Op)
    requires S.OpOk(op)
    ensures S.LeafOf(a, [], op).Some? && S.LeafOf(a, [], op).value.P? ==> S.LeafOf(a, labels, op) == S.LeafOf(a, [], op)
  {
    hide A.ResolveName, A.ResolveLabel, S.RefText;
  }

  /** One plain instruction on operands that lie on top of the stack. */
  lemma ApplyRuns(m: Module, bodies: seq<seq<Ins>>, fuel: nat, offsets: seq<nat>, p: Plain, s: State, s': State,
      st: Wasm.Store, vs: seq<Val>,
      ts: seq<Width>, locals: seq<Width>)
    requires Holds(m, s', st, locals) && AllFit(vs) && offsets == OffsetsOf(locals) && s'.jump == 0
      && s'.stack == s.stack + BytesOf(vs)
    requires PlainType(p, locals, GlobalWidths(m)) == Some((Types(vs), ts))
    ensures Pushes(m, s, C.RunSeq(m, bodies, fuel, offsets, [L(P(p))], s'), Apply(p, st, vs), ts, locals)
  {
    hide Holds, BytesOf, StepPlain, PlainEffect, PlainType, C.RunSeq;
    HoldsTypes(m, s', st, locals);
    PlainSim(m, Prog([], GlobalWidths(m), [], []), offsets, p, s.stack, s', st, vs);
    SingleRun(m, bodies, fuel, offsets, p, s');
  }

  lemma SingleRun(m: Module, bodies: seq<seq<Ins>>, fuel: nat, offsets: seq<nat>, p: Plain, s: State)
    ensures C.RunSeq(m, bodies, fuel, offsets, [L(P(p))], s)
         == match StepPlain(m, offsets, p, s) case Some(s') => C.Done(s') case None => C.Stuck
  {
    hide StepPlain;
    var ins := [L(P(p))];
    assert ins[1..] == [] && ins[0] == L(P(p));
    assert C.RunOne(m, bodies, fuel, offsets, ins[0], s) == C.RunLeaf(m, bodies, fuel, offsets, P(p), s);
  }

  /** A tree's code pushes the tree's values and leaves every stack byte below untouched. */
  lemma {:induction false} RunTree(m: Module, bodies: seq<seq<Ins>>, fuel: nat, offsets: seq<nat>, a: A.Names,
      labels: A.Labels,
      x: S.Ast, locals: seq<Width>, s: State, st: Wasm.Store)
    requires S.AstOk(x) && TypeOf(a, x, locals, GlobalWidths(m)).Some?
    requires Holds(m, s, st, locals) && offsets == OffsetsOf(locals) && s.jump == 0
    ensures S.Lower(a, labels, x, true).Some?
    ensures Pushes(m, s, C.RunSeq(m, bodies, fuel, offsets, S.Lower(a, labels, x, true).value, s), Value(a, x, st),
                   TypeOf(a, x, locals, GlobalWidths(m)).value, locals)
    decreases x, 1
  {
    hide Holds, BytesOf, Apply, C.RunSeq, OffsetsOf, S.LeafOf, PlainType;
    PlainLeaf(a, labels, x.op);
    RunTrees(m, bodies, fuel, offsets, a, labels, x.args, locals, s, st);
    var l := S.LeafOf(a, labels, x.op).value;
    var ins := S.LowerSeq(a, labels, x.args, true).value;
    RunConcat(m, bodies, fuel, offsets, ins, [L(l)], s);
    match Values(a, x.args, st)
    case Yields(st', vs) =>
      var s' := C.RunSeq(m, bodies, fuel, offsets, ins, s).s;
      ApplyRuns(m, bodies, fuel, offsets, l.p, s, s', st', vs, TypeOf(a, x, locals, GlobalWidths(m)).value, locals);
    case _ =>
  }

  lemma {:induction false} RunTrees(m: Module, bodies: seq<seq<Ins>>, fuel: nat, offsets: seq<nat>, a: A.Names,
      labels: A.Labels,
      xs: seq<S.Ast>, locals: seq<Width>, s: State, st: Wasm.Store)
    requires S.SeqOk(xs) && TypesOf(a, xs, locals, GlobalWidths(m)).Some?
    requires Holds(m, s, st, locals) && offsets == OffsetsOf(locals) && s.jump == 0
    ensures S.LowerSeq(a, labels, xs, true).Some?
    ensures Pushes(m, s, C.RunSeq(m, bodies, fuel, offsets, S.LowerSeq(a, labels, xs, true).value, s), Values(a, xs, st),
                   TypesOf(a, xs, locals, GlobalWidths(m)).value, locals)
    decreases xs, 0
  {
    hide Holds, BytesOf, C.RunOne, OffsetsOf, S.Lower, Value, TypeOf;
    if xs == [] {
      NoValues(s);
    } else {
      RunTree(m, bodies, fuel, offsets, a, labels, xs[0], locals, s, st);
      var first := S.Lower(a, labels, xs[0], true).value;
      var r := C.RunSeq(m, bodies, fuel, offsets, first, s);
      match Value(a, xs[0], st)
      case Yields(st', vs) =>
        RunTrees(m, bodies, fuel, offsets, a, labels, xs[1..], locals, r.s, st');
        RunConcat(m, bodies, fuel, offsets, first, S.LowerSeq(a, labels, xs[1..], true).value, s);
        if Values(a, xs[1..], st').Yields? { MoreValues(s.stack, vs, Values(a, xs[1..], st').vs); }
      case Trapping =>
        RunTrees(m, bodies, fuel, offsets, a, labels, xs[1..], locals, s, st);
        RunConcat(m, bodies, fuel, offsets, first, S.LowerSeq(a, labels, xs[1..], true).value, s);
      case _ => RunTrees(m, bodies, fuel, offsets, a, labels, xs[1..], locals, s, st);
    }
  }

  lemma NoValues(s: State)
    ensures s.stack + BytesOf([]) == s.stack && Types([]) == []
  {
  }

  lemma MoreValues(x: seq<byte>, vs: seq<Val>, ws: seq<Val>)
    ensures x + BytesOf(vs) + BytesOf(ws) == x + BytesOf(vs + ws) && Types(vs + ws) == Types(vs) + Types(ws)
  {
    hide BytesOf;
    BytesOfConcat(vs, ws);
  }

  /**
   Expression compilation: executing the bytes emit_folded writes for a well-typed tree, in any state, consumes
   exactly those bytes and continues from the state in which the tree's values lie on an untouched stack.
   */
  lemma ExecTree(m: Module, bodies: seq<seq<Ins>>, fuel: nat, offsets: seq<nat>, a: A.Names, labels: A.Labels,
      x: S.Ast, locals: seq<Width>, ip: nat, end: nat, s: State, st: Wasm.Store)
    requires S.AstOk(x) && TypeOf(a, x, locals, GlobalWidths(m)).Some? && C.Linked(m, bodies)
    requires Holds(m, s, st, locals) && offsets == OffsetsOf(locals) && s.jump == 0
    requires S.Lower(a, labels, x, true).Some? ==> C.WellSeq(S.Lower(a, labels, x, true).value)
    requires A.EmitFolded(a, labels, S.Fold(x)).Some? ==> At(m.code, ip, A.EmitFolded(a, labels, S.Fold(x)).value)
    requires A.EmitFolded(a, labels, S.Fold(x)).Some? ==> ip + |A.EmitFolded(a, labels, S.Fold(x)).value| <= end
    ensures A.EmitFolded(a, labels, S.Fold(x)).Some?
    ensures match Value(a, x, st)
            case Yields(st', vs) =>
              exists s' :: Pushes(m, s, C.Done(s'), Value(a, x, st), TypeOf(a, x, locals, GlobalWidths(m)).value, locals)
                && Exec(m, fuel, offsets, ip, end, s)
                  == Exec(m, fuel, offsets, ip + |A.EmitFolded(a, labels, S.Fold(x)).value|, end, s')
            case Trapping => Exec(m, fuel, offsets, ip, end, s) == Fault
            case Deviating => true
            case Ill => false
  {
    hide Holds, At, BytesOf, Exec, C.RunSeq, Value, TypeOf, A.EmitFolded, S.Lower, S.Fold, C.WellSeq, C.Linked,
      OffsetsOf, SitsSeq;
    RunTree(m, bodies, fuel, offsets, a, labels, x, locals, s, st);
    E.FoldedEmits(a, labels, x);
    var ins := S.Lower(a, labels, x, true).value;
    EncSeqSits(m.code, ip, ins);
    C.ExecSeq(m, bodies, fuel, offsets, ins, ip, end, s);
  }
}
