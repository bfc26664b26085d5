/**
 What the jump_depth countdown means: code falls through, branches to the n-th construct around it, or
 returns; for every code, whatever it leaves on the stack.
 */
module Unwinding {
  import opened Bytes
  import opened Isa
  import opened Blocks
  import opened Machine
  import opened Control

  /** How code ends; the states have no jump pending. */
  datatype Flow = Falls(s: State) | Branches(n: nat, s: State) | Returns(s: State) | Sticks | Starves

  function FlowSeq(m: Module, bodies: seq<seq<Ins>>, fuel: nat, offsets: seq<nat>, ins: seq<Ins>, s: State): Flow
    decreases fuel, LenSeq(ins), 3
  {
    if ins == [] then Falls(s)
    else
      match FlowOne(m, bodies, fuel, offsets, ins[0], s)
      case Falls(s') => FlowSeq(m, bodies, fuel, offsets, ins[1..], s')
      case other => other
  }

  function FlowOne(m: Module, bodies: seq<seq<Ins>>, fuel: nat, offsets: seq<nat>, i: Ins, s: State): Flow
    decreases fuel, Len(i), 2
  {
    match i
    case L(l) => FlowLeaf(m, bodies, fuel, offsets, l, s)
    case Block(loop, _, body) => FlowFrame(m, bodies, fuel, offsets, body, loop, s)
    case If(_, thn, els) =>
      if |s.stack| < 4 then Sticks
      else if Top(s.stack, W32) != 0 then FlowFrame(m, bodies, fuel, offsets, thn, false, s)
      else FlowFrame(m, bodies, fuel, offsets, els, false, s)
  }

  function FlowLeaf(m: Module, bodies: seq<seq<Ins>>, fuel: nat, offsets: seq<nat>, l: Leaf, s: State): Flow
    decreases fuel, 0, 1
  {
    match l
    case P(p) => (match StepPlain(m, offsets, p, s) case Some(s') => Falls(s') case None => Sticks)
    case Br(n) => Branches(n, s)
    case BrIf(n) =>
      if |s.stack| < 4 then Sticks
      else
        var s' := s.(stack := Rest(s.stack, 4));
        if Top(s.stack, W32) != 0 then Branches(n, s') else Falls(s')
    case Return => Returns(s)
    case Call(f) => FlowCall(m, bodies, fuel, f, s)
    case CallIndirect(_) =>
      match TableEntry(m, s)
      case Some(f) => FlowCall(m, bodies, fuel, f, s.(stack := Rest(s.stack, 4)))
      case None => Sticks
  }

  /** A branch to this construct ends it, or restarts it from the stack height of its entry if it is a loop. */
  function FlowFrame(m: Module, bodies: seq<seq<Ins>>, fuel: nat, offsets: seq<nat>, body: seq<Ins>, loop: bool,
      s: State): Flow
    decreases fuel, LenSeq(body), 4
  {
    match FlowSeq(m, bodies, fuel, offsets, body, s)
    case Branches(n, s') =>
      if n > 0 then Branches(n - 1, s')
      else if !loop then Falls(s')
      else if |s'.stack| < |s.stack| then Sticks
      else if fuel == 0 then Starves
      else FlowFrame(m, bodies, fuel - 1, offsets, body, true, s'.(stack := s'.stack[..|s.stack|]))
    case other => other
  }

  /** A branch past the function's own label goes on in the caller, one construct less far. */
  function FlowCall(m: Module, bodies: seq<seq<Ins>>, fuel: nat, f: nat, s: State): Flow
    decreases fuel, 0, 0
  {
    match CalleeLocals(m, f, s)
    case None => Sticks
    case Some(locals) =>
      if fuel == 0 then Starves
      else if f >= |bodies| then Sticks
      else
        match FlowSeq(m, bodies, fuel - 1, m.fns[f].offsets, bodies[f], s.(locals := locals))
        case Falls(s') => Falls(s'.(locals := s.locals))
        case Returns(s') => Falls(s'.(locals := s.locals))
        case Branches(n, s') =>
          if n == 0 then Falls(s'.(locals := s.locals)) else Branches(n - 1, s'.(locals := s.locals))
        case other => other
  }

  /** The countdown that stands for a flow: 0, the distance plus one, or something negative. */
  ghost predicate Counts(r: Run, flow: Flow)
  {
    match flow
    case Falls(s) => r == Done(s) && s.jump == 0
    case Branches(n, s) => r == Done(s.(jump := n + 1)) && s.jump == 0
    case Returns(s) => r.Done? && r.s.jump < 0 && s.jump == 0 && r.s.(jump := 0) == s
    case Sticks => r == Stuck
    case Starves => r == NoFuel
  }

  /**
   Control unwinding: for every code, the countdown through the nested runs reaches exactly the construct a
   branch names, restarts it only if it is a loop, and return stops at the nearest call.
   */
  lemma {:induction false} UnwindSeq(m: Module, bodies: seq<seq<Ins>>, fuel: nat, offsets: seq<nat>, ins: seq<Ins>,
      s: State)
    requires s.jump == 0
    ensures Counts(RunSeq(m, bodies, fuel, offsets, ins, s), FlowSeq(m, bodies, fuel, offsets, ins, s))
    decreases fuel, LenSeq(ins), 3
  {
    hide RunOne, FlowOne;
    if ins != [] {
      UnwindOne(m, bodies, fuel, offsets, ins[0], s);
      match FlowOne(m, bodies, fuel, offsets, ins[0], s)
      case Falls(s') => UnwindSeq(m, bodies, fuel, offsets, ins[1..], s');
      case _ =>
    }
  }

  lemma {:induction false} UnwindOne(m: Module, bodies: seq<seq<Ins>>, fuel: nat, offsets: seq<nat>, i: Ins, s: State)
    requires s.jump == 0
    ensures Counts(RunOne(m, bodies, fuel, offsets, i, s), FlowOne(m, bodies, fuel, offsets, i, s))
    decreases fuel, Len(i), 2
  {
    hide RunFrame, FlowFrame, RunLeaf, FlowLeaf, Counts, Top;
    match i
    case L(l) => UnwindLeaf(m, bodies, fuel, offsets, l, s);
    case Block(loop, _, body) => UnwindFrame(m, bodies, fuel, offsets, body, loop, s);
    case If(_, thn, els) =>
      UnwindFrame(m, bodies, fuel, offsets, thn, false, s);
      UnwindFrame(m, bodies, fuel, offsets, els, false, s);
      StuckCounts();
  }

  lemma StuckCounts()
    ensures Counts(Stuck, Sticks) && Counts(NoFuel, Starves)
  {
  }

  lemma {:induction false} UnwindFrame(m: Module, bodies: seq<seq<Ins>>, fuel: nat, offsets: seq<nat>, body: seq<Ins>,
      loop: bool, s: State)
    requires s.jump == 0
    ensures Counts(RunFrame(m, bodies, fuel, offsets, body, loop, s), FlowFrame(m, bodies, fuel, offsets, body, loop, s))
    decreases fuel, LenSeq(body), 4
  {
    hide RunSeq, FlowSeq;
    UnwindSeq(m, bodies, fuel, offsets, body, s);
    match FlowSeq(m, bodies, fuel, offsets, body, s)
    case Branches(n, s') =>
      if n == 0 && loop && |s'.stack| >= |s.stack| && fuel > 0 {
        UnwindFrame(m, bodies, fuel - 1, offsets, body, true, s'.(stack := s'.stack[..|s.stack|]));
      }
    case _ =>
  }

  /** Plain instructions never touch the countdown. */
  lemma PlainKeepsJump(m: Module, offsets: seq<nat>, p: Plain, s: State)
    ensures StepPlain(m, offsets, p, s).Some? ==> StepPlain(m, offsets, p, s).value.jump == s.jump
  {
  }

  lemma {:induction false} UnwindLeaf(m: Module, bodies: seq<seq<Ins>>, fuel: nat, offsets: seq<nat>, l: Leaf, s: State)
    requires s.jump == 0
    ensures Counts(RunLeaf(m, bodies, fuel, offsets, l, s), FlowLeaf(m, bodies, fuel, offsets, l, s))
    decreases fuel, 0, 1
  {
    hide StepPlain, RunCall, FlowCall, Top, Rest;
    match l
    case P(p) => PlainKeepsJump(m, offsets, p, s);
    case Call(f) => UnwindCall(m, bodies, fuel, f, s);
    case CallIndirect(_) =>
      match TableEntry(m, s) {
        case Some(f) => UnwindCall(m, bodies, fuel, f, s.(stack := Rest(s.stack, 4)));
        case None =>
      }
    case _ =>
  }

  lemma {:induction false} UnwindCall(m: Module, bodies: seq<seq<Ins>>, fuel: nat, f: nat, s: State)
    requires s.jump == 0
    ensures Counts(RunCall(m, bodies, fuel, f, s), FlowCall(m, bodies, fuel, f, s))
    decreases fuel, 0, 0
  {
    hide RunSeq, FlowSeq;
    match CalleeLocals(m, f, s)
    case None =>
    case Some(locals) =>
      if fuel > 0 && f < |bodies| {
        UnwindSeq(m, bodies, fuel - 1, m.fns[f].offsets, bodies[f], s.(locals := locals));
      }
  }

  // ----- branches in scope -----

  /** Every branch names one of the depth constructs around it, or the function itself. */
  predicate InScopeSeq(ins: seq<Ins>, depth: nat)
    decreases ins
  {
    ins == [] || (InScope(ins[0], depth) && InScopeSeq(ins[1..], depth))
  }

  predicate InScope(i: Ins, depth: nat)
    decreases i
  {
    match i
    case L(l) => (l.Br? || l.BrIf?) ==> l.n <= depth
    case Block(_, _, body) => InScopeSeq(body, depth + 1)
    case If(_, thn, els) => InScopeSeq(thn, depth + 1) && InScopeSeq(els, depth + 1)
  }

  ghost predicate AllInScope(bodies: seq<seq<Ins>>)
  {
    forall f :: 0 <= f < |bodies| ==> InScopeSeq(bodies[f], 0)
  }

  lemma {:induction false} ScopedSeq(m: Module, bodies: seq<seq<Ins>>, fuel: nat, offsets: seq<nat>, ins: seq<Ins>,
      s: State, depth: nat)
    requires AllInScope(bodies) && InScopeSeq(ins, depth)
    ensures var r := FlowSeq(m, bodies, fuel, offsets, ins, s); r.Branches? ==> r.n <= depth
    decreases fuel, LenSeq(ins), 3
  {
    hide FlowOne, InScope, AllInScope;
    if ins != [] {
      ScopedOne(m, bodies, fuel, offsets, ins[0], s, depth);
      match FlowOne(m, bodies, fuel, offsets, ins[0], s)
      case Falls(s') => ScopedSeq(m, bodies, fuel, offsets, ins[1..], s', depth);
      case _ =>
    }
  }

  lemma {:induction false} ScopedOne(m: Module, bodies: seq<seq<Ins>>, fuel: nat, offsets: seq<nat>, i: Ins, s: State,
      depth: nat)
    requires AllInScope(bodies) && InScope(i, depth)
    ensures var r := FlowOne(m, bodies, fuel, offsets, i, s); r.Branches? ==> r.n <= depth
    decreases fuel, Len(i), 2
  {
    hide FlowFrame, FlowCall, AllInScope, Top;
    match i
    case L(l) =>
      match l {
        case Call(f) => ScopedCall(m, bodies, fuel, f, s);
        case CallIndirect(_) =>
          match TableEntry(m, s) {
            case Some(f) => ScopedCall(m, bodies, fuel, f, s.(stack := Rest(s.stack, 4)));
            case None =>
          }
        case _ =>
      }
    case Block(loop, _, body) => ScopedFrame(m, bodies, fuel, offsets, body, loop, s, depth);
    case If(_, thn, els) =>
      ScopedFrame(m, bodies, fuel, offsets, thn, false, s, depth);
      ScopedFrame(m, bodies, fuel, offsets, els, false, s, depth);
  }

  lemma {:induction false} ScopedFrame(m: Module, bodies: seq<seq<Ins>>, fuel: nat, offsets: seq<nat>, body: seq<Ins>,
      loop: bool, s: State, depth: nat)
    requires AllInScope(bodies) && InScopeSeq(body, depth + 1)
    ensures var r := FlowFrame(m, bodies, fuel, offsets, body, loop, s); r.Branches? ==> r.n <= depth
    decreases fuel, LenSeq(body), 4
  {
    hide FlowSeq, InScopeSeq, AllInScope;
    ScopedSeq(m, bodies, fuel, offsets, body, s, depth + 1);
    match FlowSeq(m, bodies, fuel, offsets, body, s)
    case Branches(n, s') =>
      if n == 0 && loop && |s'.stack| >= |s.stack| && fuel > 0 {
        ScopedFrame(m, bodies, fuel - 1, offsets, body, true, s'.(stack := s'.stack[..|s.stack|]), depth);
      }
    case _ =>
  }

  /** With every branch in scope, a call falls through to its caller. */
  lemma {:induction false} ScopedCall(m: Module, bodies: seq<seq<Ins>>, fuel: nat, f: nat, s: State)
    requires AllInScope(bodies)
    ensures !FlowCall(m, bodies, fuel, f, s).Branches? && !FlowCall(m, bodies, fuel, f, s).Returns?
    decreases fuel, 0, 0
  {
    hide FlowSeq, InScopeSeq;
    match CalleeLocals(m, f, s)
    case None =>
    case Some(locals) =>
      if fuel > 0 && f < |bodies| {
        ScopedSeq(m, bodies, fuel - 1, m.fns[f].offsets, bodies[f], s.(locals := locals), 0);
      }
  }

  /** call_function on emitted code with its branches in scope returns with jump_depth at zero. */
  lemma CallsSettle(m: Module, bodies: seq<seq<Ins>>, fuel: nat, f: nat, s: State)
    requires Linked(m, bodies) && AllInScope(bodies) && s.jump == 0
    ensures var r := CallFunction(m, fuel, f, s); r.End? ==> r.s.jump == 0 && r.s.locals == s.locals
  {
    hide CallFunction, RunCall, FlowCall, Linked, AllInScope;
    CallRefines(m, bodies, fuel, f, s);
    UnwindCall(m, bodies, fuel, f, s);
    ScopedCall(m, bodies, fuel, f, s);
    CallRestores(m, bodies, fuel, f, s);
  }

  lemma CallRestores(m: Module, bodies: seq<seq<Ins>>, fuel: nat, f: nat, s: State)
    ensures FlowCall(m, bodies, fuel, f, s).Falls? ==> FlowCall(m, bodies, fuel, f, s).s.locals == s.locals
  {
    hide FlowSeq;
  }

  // ----- termination -----

  /** Neither loops nor calls. */
  predicate StraightSeq(ins: seq<Ins>)
    decreases ins
  {
    ins == [] || (Straight(ins[0]) && StraightSeq(ins[1..]))
  }

  predicate Straight(i: Ins)
    decreases i
  {
    match i
    case L(l) => !l.Call? && !l.CallIndirect?
    case Block(loop, _, body) => !loop && StraightSeq(body)
    case If(_, thn, els) => StraightSeq(thn) && StraightSeq(els)
  }

  lemma {:induction false} StraightEnds(m: Module, bodies: seq<seq<Ins>>, fuel: nat, offsets: seq<nat>, ins: seq<Ins>,
      s: State)
    requires StraightSeq(ins)
    ensures RunSeq(m, bodies, fuel, offsets, ins, s) != NoFuel
    decreases LenSeq(ins), 1
  {
    hide StepPlain, Top;
    if ins != [] {
      StraightEndsOne(m, bodies, fuel, offsets, ins[0], s);
      match RunOne(m, bodies, fuel, offsets, ins[0], s)
      case Done(s') => StraightEnds(m, bodies, fuel, offsets, ins[1..], s');
      case _ =>
    }
  }

  lemma {:induction false} StraightEndsOne(m: Module, bodies: seq<seq<Ins>>, fuel: nat, offsets: seq<nat>, i: Ins,
      s: State)
    requires Straight(i)
    ensures RunOne(m, bodies, fuel, offsets, i, s) != NoFuel
    decreases Len(i), 0
  {
    hide StepPlain, Top, RunSeq;
    match i
    case L(l) =>
    case Block(_, _, body) => StraightEnds(m, bodies, fuel, offsets, body, s);
    case If(_, thn, els) =>
      StraightEnds(m, bodies, fuel, offsets, thn, s);
      StraightEnds(m, bodies, fuel, offsets, els, s);
  }

  /** Emitted code without loops and calls ends, or faults, on no fuel at all. */
  lemma StraightCodeEnds(m: Module, bodies: seq<seq<Ins>>, offsets: seq<nat>, ins: seq<Ins>, at: nat, s: State)
    requires Linked(m, bodies) && WellSeq(ins) && StraightSeq(ins) && SitsSeq(m.code, at, ins) && s.jump == 0
    ensures Exec(m, 0, offsets, at, at + LenSeq(ins), s) != OutOfFuel
  {
    hide Linked, WellSeq, SitsSeq, StraightSeq, RunSeq;
    ExecSeq(m, bodies, 0, offsets, ins, at, at + LenSeq(ins), s);
    StraightEnds(m, bodies, 0, offsets, ins, s);
    match RunSeq(m, bodies, 0, offsets, ins, s)
    case Done(s') => EmptyEnds(m, offsets, at + LenSeq(ins), s');
    case _ =>
  }

  lemma EmptyEnds(m: Module, offsets: seq<nat>, at: nat, s: State)
    ensures Exec(m, 0, offsets, at, at, s).End?
  {
  }

  /** Every construct's body lies strictly inside what is left of the frame around it, and its end is past its start. */
  lemma BodiesInside(code: seq<byte>, at: nat, i: Ins, end: nat)
    requires Well(i) && Sits(code, at, i) && at + Len(i) <= end <= |code| && !i.L?
    ensures var stop := Scan(code, at + 2, 1);
      stop.Some? && at + 2 < stop.value <= end
      && (i.If? ==> Scan(code, stop.value, 1).Some? && stop.value < Scan(code, stop.value, 1).value <= end)
  {
    hide Scan, Well, Sits;
    match i
    case Block(loop, bt, body) => BlockParts(code, at, loop, bt, body);
    case If(bt, thn, els) => IfParts(code, at, bt, thn, els);
  }
}
