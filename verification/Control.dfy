/**
 Structured control over the machine's own state: constructs as trees, br and return by the jump_depth
 countdown, and no bytes. The bytecode run of emitted code is this run, step for step.
 */
module Control {
  import opened Bytes
  import opened Leb
  import opened Isa
  import opened Alu
  import opened Blocks
  import opened Machine

  datatype Run = Done(s: State) | Stuck | NoFuel

  function FromRes(r: Res): Run
  {
    match r case End(_, s) => Done(s) case Fault => Stuck case OutOfFuel => NoFuel
  }

  /** Leaving one frame: a pending jump counts down by one. */
  function ExitFrame(s: State): State { if s.jump != 0 then s.(jump := s.jump - 1) else s }

  function RunSeq(m: Module, bodies: seq<seq<Ins>>, fuel: nat, offsets: seq<nat>, ins: seq<Ins>, s: State): Run
    decreases fuel, LenSeq(ins), 3
  {
    if ins == [] then Done(s)
    else
      match RunOne(m, bodies, fuel, offsets, ins[0], s)
      case Done(s') => if s'.jump != 0 then Done(s') else RunSeq(m, bodies, fuel, offsets, ins[1..], s')
      case other => other
  }

  function RunOne(m: Module, bodies: seq<seq<Ins>>, fuel: nat, offsets: seq<nat>, i: Ins, s: State): Run
    decreases fuel, Len(i), 2
  {
    match i
    case L(l) => RunLeaf(m, bodies, fuel, offsets, l, s)
    case Block(loop, _, body) => RunFrame(m, bodies, fuel, offsets, body, loop, s)
    case If(_, thn, els) =>
      if |s.stack| < 4 then Stuck
      else if Top(s.stack, W32) != 0 then RunFrame(m, bodies, fuel, offsets, thn, false, s)
      else RunFrame(m, bodies, fuel, offsets, els, false, s)
  }

  function RunLeaf(m: Module, bodies: seq<seq<Ins>>, fuel: nat, offsets: seq<nat>, l: Leaf, s: State): Run
    decreases fuel, 0, 1
  {
    match l
    case P(p) => (match StepPlain(m, offsets, p, s) case Some(s') => Done(s') case None => Stuck)
    case Br(n) => Done(s.(jump := n + 1))
    case BrIf(n) =>
      if |s.stack| < 4 then Stuck
      else Done(s.(stack := Rest(s.stack, 4), jump := if Top(s.stack, W32) != 0 then n + 1 else 0))
    case Return => Done(s.(jump := -1))
    case Call(f) => RunCall(m, bodies, fuel, f, s)
    case CallIndirect(_) =>
      match TableEntry(m, s)
      case Some(f) => RunCall(m, bodies, fuel, f, s.(stack := Rest(s.stack, 4)))
      case None => Stuck
  }

  function RunFrame(m: Module, bodies: seq<seq<Ins>>, fuel: nat, offsets: seq<nat>, body: seq<Ins>, loop: bool,
      s: State): Run
    decreases fuel, LenSeq(body), 4
  {
    match RunSeq(m, bodies, fuel, offsets, body, s)
    case Done(s') =>
      if s'.jump == 1 && loop then
        if |s'.stack| < |s.stack| then Stuck
        else if fuel == 0 then NoFuel
        else RunFrame(m, bodies, fuel - 1, offsets, body, true, s'.(jump := 0, stack := s'.stack[..|s.stack|]))
      else Done(ExitFrame(s'))
    case other => other
  }

  function RunCall(m: Module, bodies: seq<seq<Ins>>, fuel: nat, f: nat, s: State): Run
    decreases fuel, 0, 0
  {
    match CalleeLocals(m, f, s)
    case None => Stuck
    case Some(locals) =>
      if fuel == 0 then NoFuel
      else if f >= |bodies| then Stuck
      else
        match RunSeq(m, bodies, fuel - 1, m.fns[f].offsets, bodies[f], s.(locals := locals))
        case Done(s') => FromRes(LeaveCall(s, End(true, ExitFrame(s'))))
        case other => other
  }

  // ----- emitted code -----

  predicate EncodableLeaf(l: Leaf)
  {
    if l.P? then Encodable(l.p) else ScannableLeaf(l)
  }

  /** Code that read_block and the decoder cope with wherever they meet it. */
  predicate WellSeq(ins: seq<Ins>)
    decreases ins
  {
    ins == [] || (Well(ins[0]) && WellSeq(ins[1..]))
  }

  predicate Well(i: Ins)
    decreases i
  {
    match i
    case L(l) => EncodableLeaf(l)
    case Block(_, _, body) => ScannableSeq(body) && DepthSeq(body) <= 255
    case If(_, thn, els) => ScannableSeq(thn) && ScannableSeq(els) && DepthSeq(thn) <= 255 && DepthSeq(els) <= 255
  }

  lemma {:induction false} ScannableIsWell(ins: seq<Ins>)
    requires ScannableSeq(ins) && DepthSeq(ins) <= 256
    ensures WellSeq(ins)
    decreases ins
  {
    if ins != [] { ScannableIsWell(ins[1..]); }
  }

  /** Function f's code is its body followed by an end byte. */
  ghost predicate LinkedFn(m: Module, f: nat, body: seq<Ins>)
    requires f < |m.fns|
  {
    var fn := m.fns[f];
    && WellSeq(body) && SitsSeq(m.code, fn.begin, body)
    && fn.size == LenSeq(body) + 1 && fn.begin + LenSeq(body) < |m.code|
    && m.code[fn.begin + LenSeq(body)] == OP_END
  }

  ghost predicate Linked(m: Module, bodies: seq<seq<Ins>>)
  {
    |bodies| == |m.fns| && forall f :: 0 <= f < |bodies| && !m.fns[f].isImport ==> LinkedFn(m, f, bodies[f])
  }

  /** The machine's result from a position, given the structured run of the code that lies before it. */
  ghost function Resume(m: Module, fuel: nat, offsets: seq<nat>, ip: nat, end: nat, r: Run): Res
  {
    match r
    case Done(s) => Exec(m, fuel, offsets, ip, end, s)
    case Stuck => Fault
    case NoFuel => OutOfFuel
  }

  /**
   The bytecode machine on emitted code does what the structured run does, with the same fuel: it
   ends, faults or runs out together with it, and continues after the code from the same state.
   */
  lemma {:induction false} ExecSeq(m: Module, bodies: seq<seq<Ins>>, fuel: nat, offsets: seq<nat>, ins: seq<Ins>,
      ip: nat, end: nat, s: State)
    requires Linked(m, bodies) && WellSeq(ins) && SitsSeq(m.code, ip, ins) && ip + LenSeq(ins) <= end && s.jump == 0
    ensures Exec(m, fuel, offsets, ip, end, s)
         == Resume(m, fuel, offsets, ip + LenSeq(ins), end, RunSeq(m, bodies, fuel, offsets, ins, s))
    decreases fuel, LenSeq(ins), 3
  {
    hide Exec, Well, Sits, RunOne;
    if ins != [] {
      var next := ip + Len(ins[0]);
      ExecOne(m, bodies, fuel, offsets, ins[0], ip, end, s);
      match RunOne(m, bodies, fuel, offsets, ins[0], s)
      case Done(s') =>
        if s'.jump != 0 {
          ExecJumping(m, fuel, offsets, next, end, s');
          ExecJumping(m, fuel, offsets, ip + LenSeq(ins), end, s');
        } else {
          ExecSeq(m, bodies, fuel, offsets, ins[1..], next, end, s');
        }
      case _ =>
    }
  }

  /** With a jump pending the position does not matter. */
  lemma ExecJumping(m: Module, fuel: nat, offsets: seq<nat>, ip: nat, end: nat, s: State)
    requires s.jump != 0
    ensures Exec(m, fuel, offsets, ip, end, s) == End(false, ExitFrame(s))
  {
  }

  ghost function Proceed(m: Module, fuel: nat, offsets: seq<nat>, end: nat, step: Stepped): Res
  {
    match step case Next(ip, s) => Exec(m, fuel, offsets, ip, end, s) case Stop(r) => r
  }

  lemma ExecStep(m: Module, fuel: nat, offsets: seq<nat>, ip: nat, end: nat, s: State)
    requires s.jump == 0 && ip < end && ip < |m.code|
    ensures Exec(m, fuel, offsets, ip, end, s) == Proceed(m, fuel, offsets, end, Step(m, fuel, offsets, ip, s))
  {
  }

  lemma {:induction false} ExecOne(m: Module, bodies: seq<seq<Ins>>, fuel: nat, offsets: seq<nat>, i: Ins,
      ip: nat, end: nat, s: State)
    requires Linked(m, bodies) && Well(i) && Sits(m.code, ip, i) && ip + Len(i) <= end && s.jump == 0
    ensures Exec(m, fuel, offsets, ip, end, s)
         == Resume(m, fuel, offsets, ip + Len(i), end, RunOne(m, bodies, fuel, offsets, i, s))
    decreases fuel, Len(i), 2
  {
    hide Exec, Step, RunFrame, EnterFrame, Scan, Linked, Well, Sits, RunLeaf;
    match i
    case L(l) =>
      LeafParts(m.code, ip, l);
      ExecStep(m, fuel, offsets, ip, end, s);
      StepLeaf(m, bodies, fuel, offsets, l, ip, s);
    case Block(loop, bt, body) =>
      BlockParts(m.code, ip, loop, bt, body);
      ExecStep(m, fuel, offsets, ip, end, s);
      StepBlock(m, fuel, offsets, ip, loop, ip + Len(i), s);
      ExecFrame(m, bodies, fuel, offsets, body, ip + 2, loop, s);
    case If(bt, thn, els) =>
      IfParts(m.code, ip, bt, thn, els);
      ExecStep(m, fuel, offsets, ip, end, s);
      StepIfElse(m, bodies, fuel, offsets, bt, thn, els, ip, s);
  }

  lemma LeafParts(code: seq<byte>, ip: nat, l: Leaf)
    requires Well(L(l)) && Sits(code, ip, L(l))
    ensures EncodableLeaf(l) && At(code, ip, EncLeaf(l)) && ip < |code|
  {
  }

  /** What is read at a construct's opening: its opcode, and where read_block finds its end. */
  lemma BlockParts(code: seq<byte>, ip: nat, loop: bool, bt: byte, body: seq<Ins>)
    requires Well(Block(loop, bt, body)) && Sits(code, ip, Block(loop, bt, body))
    ensures Framed(code, ip + 2, body) && ip + 1 < |code| && code[ip] == BlockOp(loop)
    ensures Scan(code, ip + 2, 1) == Some(ip + Len(Block(loop, bt, body)))
  {
    hide Scan, SitsSeq, ScannableSeq, DepthSeq, LenSeq;
    ReadBlockFindsEnd(code, ip + 2, body);
  }

  lemma IfParts(code: seq<byte>, ip: nat, bt: byte, thn: seq<Ins>, els: seq<Ins>)
    requires Well(If(bt, thn, els)) && Sits(code, ip, If(bt, thn, els))
    ensures Framed(code, ip + 2, thn) && Framed(code, ip + 3 + LenSeq(thn), els)
    ensures ip + 1 < |code| && code[ip] == OP_IF
    ensures Scan(code, ip + 2, 1) == Some(ip + 3 + LenSeq(thn))
    ensures Scan(code, ip + 3 + LenSeq(thn), 1) == Some(ip + Len(If(bt, thn, els)))
  {
    hide Scan, SitsSeq, ScannableSeq, DepthSeq, LenSeq;
    ReadBlockFindsEnd(code, ip + 2, thn);
    ReadBlockFindsEnd(code, ip + 3 + LenSeq(thn), els);
  }

  lemma {:induction false} StepIfElse(m: Module, bodies: seq<seq<Ins>>, fuel: nat, offsets: seq<nat>, bt: byte,
      thn: seq<Ins>, els: seq<Ins>, ip: nat, s: State)
    requires Linked(m, bodies) && Well(If(bt, thn, els)) && Sits(m.code, ip, If(bt, thn, els)) && s.jump == 0
    ensures ip < |m.code|
    ensures Step(m, fuel, offsets, ip, s)
         == ToStep(ip + Len(If(bt, thn, els)), RunOne(m, bodies, fuel, offsets, If(bt, thn, els), s))
    decreases fuel, Len(If(bt, thn, els)), 1
  {
    hide Step, RunFrame, EnterFrame, Scan, Linked, Well, Sits;
    var mid := ip + 3 + LenSeq(thn);
    IfParts(m.code, ip, bt, thn, els);
    StepIfIs(m, fuel, offsets, ip, mid, ip + Len(If(bt, thn, els)), s);
    ExecFrame(m, bodies, fuel, offsets, thn, ip + 2, false, s);
    ExecFrame(m, bodies, fuel, offsets, els, mid, false, s);
  }

  /** A body read_block copes with, in place and closed by an end or an else byte. */
  ghost predicate Framed(code: seq<byte>, start: nat, body: seq<Ins>)
  {
    && ScannableSeq(body) && DepthSeq(body) <= 255 && SitsSeq(code, start, body)
    && start + LenSeq(body) < |code|
    && (code[start + LenSeq(body)] == OP_END || code[start + LenSeq(body)] == OP_ELSE)
  }

  lemma StepBlock(m: Module, fuel: nat, offsets: seq<nat>, ip: nat, loop: bool, stop: nat, s: State)
    requires ip + 1 < |m.code| && m.code[ip] == BlockOp(loop) && Scan(m.code, ip + 2, 1) == Some(stop)
    ensures Step(m, fuel, offsets, ip, s) == After(stop, EnterFrame(m, fuel, offsets, ip + 2, stop, loop, s))
  {
  }

  lemma StepIfIs(m: Module, fuel: nat, offsets: seq<nat>, ip: nat, mid: nat, stop: nat, s: State)
    requires ip + 1 < |m.code| && m.code[ip] == OP_IF
    requires Scan(m.code, ip + 2, 1) == Some(mid) && Scan(m.code, mid, 1) == Some(stop)
    ensures Step(m, fuel, offsets, ip, s)
         == if |s.stack| < 4 then Stop(Fault)
            else if Top(s.stack, W32) != 0 then After(stop, EnterFrame(m, fuel, offsets, ip + 2, mid, false, s))
            else After(stop, EnterFrame(m, fuel, offsets, mid, stop, false, s))
  {
  }

  /** A frame of emitted code, closed by an end or an else byte that does nothing when reached. */
  lemma {:induction false} ExecFrame(m: Module, bodies: seq<seq<Ins>>, fuel: nat, offsets: seq<nat>, body: seq<Ins>,
      start: nat, loop: bool, s: State)
    requires Linked(m, bodies) && Framed(m.code, start, body) && s.jump == 0
    ensures FromRes(EnterFrame(m, fuel, offsets, start, start + LenSeq(body) + 1, loop, s))
         == RunFrame(m, bodies, fuel, offsets, body, loop, s)
    decreases fuel, LenSeq(body), 4
  {
    hide Exec, SitsSeq, ScannableSeq, WellSeq, DepthSeq, LenSeq, RunSeq;
    var last := start + LenSeq(body);
    ScannableIsWell(body);
    ExecSeq(m, bodies, fuel, offsets, body, start, last + 1, s);
    match RunSeq(m, bodies, fuel, offsets, body, s)
    case Done(s') =>
      ExecCloser(m, fuel, offsets, last, s');
      if s'.jump == 1 && loop && |s'.stack| >= |s.stack| && fuel > 0 {
        ExecFrame(m, bodies, fuel - 1, offsets, body, start, true, s'.(jump := 0, stack := s'.stack[..|s.stack|]));
      }
    case _ =>
  }

  /** At the closing byte: either a jump is pending and counts down, or the frame ends naturally. */
  lemma ExecCloser(m: Module, fuel: nat, offsets: seq<nat>, last: nat, s: State)
    requires last < |m.code| && (m.code[last] == OP_END || m.code[last] == OP_ELSE)
    ensures Exec(m, fuel, offsets, last, last + 1, s) == End(s.jump == 0, ExitFrame(s))
  {
  }

  lemma CalleeIsLinked(m: Module, bodies: seq<seq<Ins>>, f: nat, s: State)
    requires Linked(m, bodies) && CalleeLocals(m, f, s).Some?
    ensures f < |m.fns| == |bodies| && LinkedFn(m, f, bodies[f])
  {
  }

  lemma {:induction false} ExecCall(m: Module, bodies: seq<seq<Ins>>, fuel: nat, f: nat, s: State)
    requires Linked(m, bodies) && s.jump == 0
    ensures FromRes(CallFunction(m, fuel, f, s)) == RunCall(m, bodies, fuel, f, s)
    decreases fuel, 0, 0
  {
    hide Exec, CalleeLocals, WellSeq, SitsSeq, RunSeq;
    match CalleeLocals(m, f, s)
    case None =>
    case Some(locals) =>
      if fuel > 0 {
        CalleeIsLinked(m, bodies, f, s);
        var fn, s0 := m.fns[f], s.(locals := locals);
        ExecSeq(m, bodies, fuel - 1, fn.offsets, bodies[f], fn.begin, fn.begin + fn.size, s0);
        match RunSeq(m, bodies, fuel - 1, fn.offsets, bodies[f], s0)
        case Done(s') => ExecCloser(m, fuel - 1, fn.offsets, fn.begin + LenSeq(bodies[f]), s');
        case _ =>
      }
  }

  function ToStep(next: nat, r: Run): Stepped
  {
    match r case Done(s) => Next(next, s) case Stuck => Stop(Fault) case NoFuel => Stop(OutOfFuel)
  }

  /** One leaf instruction: the switch's result is the structured run's. */
  lemma {:induction false} StepLeaf(m: Module, bodies: seq<seq<Ins>>, fuel: nat, offsets: seq<nat>, l: Leaf, ip: nat,
      s: State)
    requires Linked(m, bodies) && EncodableLeaf(l) && At(m.code, ip, EncLeaf(l)) && s.jump == 0
    ensures ip < |m.code|
    ensures Step(m, fuel, offsets, ip, s)
         == ToStep(ip + |EncLeaf(l)|, RunLeaf(m, bodies, fuel, offsets, l, s))
    decreases fuel, 0, 1
  {
    hide At, StepPlain, RunCall, CallFunction;
    match l
    case P(p) => StepPlainLeaf(m, fuel, offsets, p, ip, s);
    case Br(n) => SkipNumbered(m.code, ip, OP_BR, n); JumpForIs(n);
    case BrIf(n) => SkipNumbered(m.code, ip, OP_BR_IF, n); JumpForIs(n);
    case Return => SkipReturn(m.code, ip);
    case Call(f) =>
      SkipNumbered(m.code, ip, OP_CALL, f);
      ExecCall(m, bodies, fuel, f, s);
    case CallIndirect(t) =>
      SplitCallIndirect(m.code, ip, t);
      match TableEntry(m, s)
      case Some(f) => ExecCall(m, bodies, fuel, f, s.(stack := Rest(s.stack, 4)));
      case None =>
  }

  lemma JumpForIs(n: nat)
    requires n < 0x7FFF_FFFF
    ensures JumpFor(n) == n + 1
  {
  }

  lemma StepPlainLeaf(m: Module, fuel: nat, offsets: seq<nat>, p: Plain, ip: nat, s: State)
    requires Encodable(p) && At(m.code, ip, EncPlain(p))
    ensures ip < |m.code|
    ensures Step(m, fuel, offsets, ip, s)
         == ToStep(ip + |EncPlain(p)|, match StepPlain(m, offsets, p, s) case Some(s') => Done(s') case None => Stuck)
  {
    hide StepPlain, Fetch, EncPlain, EnterFrame, CallFunction;
    PlainOpcode(m.code, ip, p);
    if p.BrTable? {
      TableNotPlain(m.code, ip);
      TableFaults(m, offsets, p, s);
    } else {
      FetchOfEnc(m.code, ip, p);
    }
  }

  lemma TableNotPlain(code: seq<byte>, ip: nat)
    requires ip < |code| && code[ip] == OP_BR_TABLE
    ensures Fetch(code, ip) == NotPlain
  {
  }

  lemma TableFaults(m: Module, offsets: seq<nat>, p: Plain, s: State)
    requires p.BrTable?
    ensures StepPlain(m, offsets, p, s) == None
  {
  }

  /** No plain opcode is a control opcode of the switch, br_table's excepted. */
  lemma PlainOpcode(code: seq<byte>, ip: nat, p: Plain)
    requires Encodable(p) && At(code, ip, EncPlain(p))
    ensures ip < |code| && Flat(code[ip]) && code[ip] == Opcode(p)
    ensures Opcode(p) !in {OP_BR, OP_BR_IF, OP_RETURN, OP_CALL, OP_CALL_INDIRECT}
  {
    AtCons(code, ip, Opcode(p), Immediates(p));
    if p.Load? || p.Store? { AccessOfOpcode(p); }
  }

  /** Calls: what call_function does is what the structured call of the linked body does. */
  lemma CallRefines(m: Module, bodies: seq<seq<Ins>>, fuel: nat, f: nat, s: State)
    requires Linked(m, bodies) && s.jump == 0
    ensures FromRes(CallFunction(m, fuel, f, s)) == RunCall(m, bodies, fuel, f, s)
  {
    ExecCall(m, bodies, fuel, f, s);
  }
}
