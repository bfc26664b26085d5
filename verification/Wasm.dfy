/**
 The standard's semantics of the modelled fragment (sections 4.4.1 to 4.4.7 of the WebAssembly Core
 Specification 1.0): typed values, constructs that drop surplus operands, calls that consume their
 arguments.
 */
module Wasm {
  import opened Bytes
  import opened Isa
  import opened Alu

  datatype Val = Val(w: Width, n: nat)

  predicate Fit(v: Val) { Fits(v.w, v.n) }

  predicate AllFit(vs: seq<Val>) { forall i :: 0 <= i < |vs| ==> Fit(vs[i]) }

  datatype Fn = Fn(params: seq<Width>, results: seq<Width>, locals: seq<Width>, body: seq<Ins>,
    junk: bool)   // whether the body may leave bytes under its results; only the discipline reads it

  /** A program; None stands for an imported function. */
  datatype Prog = Prog(fns: seq<Option<Fn>>, globals: seq<Width>, types: seq<(seq<Width>, seq<Width>)>, table: seq<Option<nat>>)

  datatype Store = Store(locals: seq<Val>, globals: seq<Val>, memory: seq<byte>)

  /**
   How a run of instructions ends. Jump(n): a branch to the n-th enclosing label is pending. Deviant:
   it met something on which the interpreter is known to differ from the standard. Wrong: ill-typed.
   */
  datatype Outcome =
    | Normal(s: Store, stack: seq<Val>)
    | Jump(n: nat, s: Store, stack: seq<Val>)
    | Ret(s: Store, stack: seq<Val>)
    | Trap
    | Deviant
    | NoFuel
    | Wrong

  const PAGE: int := 0x1_0000

  function Types(vs: seq<Val>): (r: seq<Width>)
    ensures |r| == |vs|
  {
    seq(|vs|, i requires 0 <= i < |vs| => vs[i].w)
  }

  function Last<T>(s: seq<T>, n: nat): (r: seq<T>)
    requires n <= |s|
    ensures |r| == n
  {
    if n == |s| then s else s[|s| - n..]
  }

  function BlockResults(bt: byte): seq<Width>
  {
    if bt == TYPE_I32 then [W32] else if bt == TYPE_I64 then [W64] else []
  }

  function CvtFrom(op: CvtOp): Width { if op == WrapI64 then W64 else W32 }

  function CvtTo(op: CvtOp): Width { if op == WrapI64 then W32 else W64 }

  /** What a plain instruction pops and pushes. None: not typable, or not executed by this model. */
  function PlainType(p: Plain, locals: seq<Width>, globals: seq<Width>): Option<(seq<Width>, seq<Width>)>
  {
    match p
    case Unreachable => Some(([], []))
    case Nop => Some(([], []))
    case Drop => Some(([W32], []))
    case Select => Some(([W32, W32, W32], [W32]))
    case LocalGet(i) => if i < |locals| then Some(([], [locals[i]])) else None
    case LocalSet(i) => if i < |locals| then Some(([locals[i]], [])) else None
    case LocalTee(i) => if i < |locals| then Some(([locals[i]], [locals[i]])) else None
    case GlobalGet(i) => if i < |globals| then Some(([], [globals[i]])) else None
    case GlobalSet(i) => if i < |globals| then Some(([globals[i]], [])) else None
    case Load(w, n, signed, _) => if AccessWidth(w, n) then Some(([W32], [w])) else None
    case Store(w, n, _) => if AccessWidth(w, n) then Some(([W32, w], [])) else None
    case MemSize => Some(([], [W32]))
    case MemGrow => Some(([W32], [W32]))
    case Const(w, _) => Some(([], [w]))
    case Un(w, op) => Some(([w], [if op == Eqz then W32 else w]))
    case Bin(w, _) => Some(([w, w], [w]))
    case Rel(w, _) => Some(([w, w], [W32]))
    case Cvt(op) => Some(([CvtFrom(op)], [CvtTo(op)]))
    case BrTable(_) => None
  }

  datatype Effect = Ok(s: Store, out: seq<Val>) | Traps | Deviates

  /** The number in bytes of memory, sign-extended to width w when signed. */
  function LoadValue(w: Width, bytes: seq<byte>, signed: bool): nat
  {
    var v := FromLe(bytes);
    if signed && |bytes| > 0 && 2 * v >= Pow(0x100, |bytes|) then (v - Pow(0x100, |bytes|)) % Modulus(w) else v
  }

  /** Where the interpreter departs from the standard: a wrong operator, or an access outside memory, which it makes. */
  predicate PlainDeviates(p: Plain, s: Store, args: seq<Val>)
    requires PlainType(p, Types(s.locals), Types(s.globals)).Some?
    requires Types(args) == PlainType(p, Types(s.locals), Types(s.globals)).value.0
  {
    match p
    case Bin(w, op) => BinDeviates(w, op, args[0].n, args[1].n)
    case Rel(w, op) => RelDeviates(w, op, args[0].n, args[1].n)
    case Load(_, n, _, o) => args[0].n + o + n > |s.memory|
    case Store(_, n, o) => args[0].n + o + n > |s.memory|
    case _ => false
  }

  /** A plain instruction on operands of its input types, unless it deviates. */
  function PlainEffect(p: Plain, s: Store, args: seq<Val>): Effect
    requires PlainType(p, Types(s.locals), Types(s.globals)).Some?
    requires Types(args) == PlainType(p, Types(s.locals), Types(s.globals)).value.0
    requires AllFit(args)
  {
    if PlainDeviates(p, s, args) then Deviates else StdEffect(p, s, args)
  }

  /** The standard's effect of a plain instruction on operands of its input types. */
  function StdEffect(p: Plain, s: Store, args: seq<Val>): Effect
    requires PlainType(p, Types(s.locals), Types(s.globals)).Some?
    requires Types(args) == PlainType(p, Types(s.locals), Types(s.globals)).value.0
    requires AllFit(args)
  {
    var ts := Types(args);
    match p
    case Unreachable => Traps
    case Nop => Ok(s, [])
    case Drop => Ok(s, [])
    case Select => assert ts[0] == W32; Ok(s, [if args[2].n != 0 then args[0] else args[1]])
    case LocalGet(i) => Ok(s, [s.locals[i]])
    case LocalSet(i) => Ok(s.(locals := s.locals[i := args[0]]), [])
    case LocalTee(i) => Ok(s.(locals := s.locals[i := args[0]]), [args[0]])
    case GlobalGet(i) => Ok(s, [s.globals[i]])
    case GlobalSet(i) => Ok(s.(globals := s.globals[i := args[0]]), [])
    case Load(w, n, signed, o) =>
      var a := args[0].n + o;
      if a + n > |s.memory| then Traps else Ok(s, [Val(w, LoadValue(w, s.memory[a..a + n], signed))])
    case Store(w, n, o) =>
      var a := args[0].n + o;
      if a + n > |s.memory| then Traps
      else Ok(s.(memory := s.memory[..a] + Le(args[1].n, n) + s.memory[a + n..]), [])
    case MemSize => Ok(s, [Val(W32, (|s.memory| / PAGE) % Modulus(W32))])
    case MemGrow =>
      // the standard lets a growth fail; this memory never grows
      Ok(s, [Val(W32, if args[0].n == 0 then (|s.memory| / PAGE) % Modulus(W32) else Modulus(W32) - 1)])
    case Const(w, v) => Ok(s, [Val(w, v % Modulus(w))])
    case Un(w, op) => Ok(s, [Val(if op == Eqz then W32 else w, StdUn(w, op, args[0].n))])
    case Bin(w, op) =>
      assert ts[0] == w && ts[1] == w && Fit(args[0]) && Fit(args[1]);
      StdBinFits(w, op, args[0].n, args[1].n);
      (match StdBin(w, op, args[0].n, args[1].n)
       case Some(v) => Ok(s, [Val(w, v)])
       case None => Traps)
    case Rel(w, op) => Ok(s, [Val(W32, if StdRel(w, op, args[0].n, args[1].n) then 1 else 0)])
    case Cvt(op) => Ok(s, [Val(CvtTo(op), StdCvt(op, args[0].n))])
  }

  function EvalPlain(p: Plain, s: Store, stack: seq<Val>): Outcome
  {
    match PlainType(p, Types(s.locals), Types(s.globals))
    case None => Wrong
    case Some((ins, outs)) =>
      if |stack| < |ins| || Types(Last(stack, |ins|)) != ins || !AllFit(stack) then Wrong
      else
        match PlainEffect(p, s, Last(stack, |ins|))
        case Ok(s', out) => Normal(s', stack[..|stack| - |ins|] + out)
        case Traps => Trap
        case Deviates => Deviant
  }

  function EvalSeq(p: Prog, fuel: nat, ins: seq<Ins>, s: Store, stack: seq<Val>): Outcome
    decreases fuel, LenSeq(ins), 3
  {
    if ins == [] then Normal(s, stack)
    else
      match EvalOne(p, fuel, ins[0], s, stack)
      case Normal(s', stack') => EvalSeq(p, fuel, ins[1..], s', stack')
      case other => other
  }

  function EvalOne(p: Prog, fuel: nat, i: Ins, s: Store, stack: seq<Val>): Outcome
    decreases fuel, Len(i), 2
  {
    match i
    case L(l) => EvalLeaf(p, fuel, l, s, stack)
    case Block(loop, bt, body) => Over(stack, EvalBody(p, fuel, body, loop, |BlockResults(bt)|, s))
    case If(bt, thn, els) =>
      if |stack| < 1 || stack[|stack| - 1].w != W32 then Wrong
      else
        var rest := stack[..|stack| - 1];
        if stack[|stack| - 1].n != 0 then Over(rest, EvalBody(p, fuel, thn, false, |BlockResults(bt)|, s))
        else Over(rest, EvalBody(p, fuel, els, false, |BlockResults(bt)|, s))
  }

  /** A construct's outcome seen from outside: its results go on top of the operands it found. */
  function Over(below: seq<Val>, o: Outcome): Outcome
  {
    if o.Normal? then Normal(o.s, below + o.stack) else o
  }

  /** The body of a construct, on an operand stack of its own. */
  function EvalBody(p: Prog, fuel: nat, body: seq<Ins>, loop: bool, arity: nat, s: Store): Outcome
    decreases fuel, LenSeq(body), 4
  {
    match EvalSeq(p, fuel, body, s, [])
    case Jump(n, s', stack) =>
      if n > 0 then Jump(n - 1, s', stack)
      else if loop then if fuel == 0 then NoFuel else EvalBody(p, fuel - 1, body, loop, arity, s')
      else if |stack| < arity then Wrong
      else Normal(s', Last(stack, arity))
    case other => other
  }

  function EvalLeaf(p: Prog, fuel: nat, l: Leaf, s: Store, stack: seq<Val>): Outcome
    decreases fuel, 0, 1
  {
    match l
    case P(q) => EvalPlain(q, s, stack)
    case Br(n) => Jump(n, s, stack)
    case BrIf(n) =>
      if |stack| < 1 || stack[|stack| - 1].w != W32 then Wrong
      else if stack[|stack| - 1].n != 0 then Jump(n, s, stack[..|stack| - 1])
      else Normal(s, stack[..|stack| - 1])
    case Return => Ret(s, stack)
    case Call(f) => if f >= |p.fns| || p.fns[f].None? then Wrong else EvalCall(p, fuel, f, s, stack)
    case CallIndirect(t) =>
      if |stack| < 1 || stack[|stack| - 1].w != W32 || t >= |p.types| then Wrong
      else
        var e := stack[|stack| - 1].n;
        if e >= |p.table| || p.table[e].None? then Trap
        else
          var f := p.table[e].value;
          // the interpreter neither checks the callee's type nor is its host's code part of the model
          if f >= |p.fns| || p.fns[f].None? || (p.fns[f].value.params, p.fns[f].value.results) != p.types[t] then Deviant
          else EvalCall(p, fuel, f, s, stack[..|stack| - 1])
  }

  function ZeroVals(ts: seq<Width>): (r: seq<Val>)
    ensures |r| == |ts|
  {
    seq(|ts|, i requires 0 <= i < |ts| => Val(ts[i], 0))
  }

  function EvalCall(p: Prog, fuel: nat, f: nat, s: Store, stack: seq<Val>): Outcome
    requires f < |p.fns| && p.fns[f].Some?
    decreases fuel, 0, 0
  {
    var fn := p.fns[f].value;
    if |stack| < |fn.params| || Types(Last(stack, |fn.params|)) != fn.params then Wrong
    else if fuel == 0 then NoFuel
    else
      var callee := s.(locals := Last(stack, |fn.params|) + ZeroVals(fn.locals));
      ReturnTo(s, stack[..|stack| - |fn.params|], |fn.results|, EvalSeq(p, fuel - 1, fn.body, callee, []))
  }

  /** A call's outcome: the callee's last values are its results, and the caller's locals come back. */
  function ReturnTo(caller: Store, below: seq<Val>, arity: nat, o: Outcome): Outcome
  {
    match o
    case Normal(s, stack) => if |stack| != arity then Wrong else Normal(s.(locals := caller.locals), below + stack)
    case Jump(n, s, stack) =>
      if n > 0 || |stack| < arity then Wrong else Normal(s.(locals := caller.locals), below + Last(stack, arity))
    case Ret(s, stack) =>
      if |stack| < arity then Wrong else Normal(s.(locals := caller.locals), below + Last(stack, arity))
    case other => other
  }
}
