/**
 A static discipline under which the interpreter's operand stack always ends in the standard's: the
 ordinary typing of section 3.3 of the WebAssembly Core Specification 1.0, plus a rule for the three
 things the interpreter leaves under a result (an if's condition, a call's arguments, the surplus of a
 forward branch): they are allowed only where no operand is pending.
 */
module Discipline {
  import opened Bytes
  import opened Isa
  import opened Wasm

  /**
   A label. junk: bytes may stay under its results. clean: no operand was pending when the constructs
   between it and the current one were entered.
   */
  datatype Label = Label(arity: seq<Width>, loop: bool, junk: bool, clean: bool)

  /** labels[0] is the innermost; the last one is the function's own. junk: of the current construct. */
  datatype Ctx = Ctx(locals: seq<Width>, labels: seq<Label>, junk: bool)

  /** Live: the operand types after the code. Dead: control never gets there. */
  datatype Typing = Bad | Dead | Live(stack: seq<Width>)

  predicate EndsIn(stack: seq<Width>, ts: seq<Width>)
  {
    |ts| <= |stack| && Last(stack, |ts|) == ts
  }

  /** May a branch to label n be taken with these operands? */
  predicate BranchOk(c: Ctx, n: nat, stack: seq<Width>)
  {
    n < |c.labels| && EndsIn(stack, c.labels[n].arity) &&
    (c.labels[n].loop || c.labels[n].junk || (c.labels[n].clean && stack == c.labels[n].arity))
  }

  /** The context inside a construct entered with the given operands pending. */
  function Inside(c: Ctx, pending: seq<Width>, loop: bool, results: seq<Width>): Ctx
  {
    var junk := c.junk && pending == [];
    var outer := seq(|c.labels|, i requires 0 <= i < |c.labels| => c.labels[i].(clean := c.labels[i].clean && pending == []));
    c.(labels := [Label(if loop then [] else results, loop, junk, true)] + outer, junk := junk)
  }

  predicate KnownType(bt: byte) { bt == TYPE_VOID || bt == TYPE_I32 || bt == TYPE_I64 }

  function CheckSeq(p: Prog, c: Ctx, ins: seq<Ins>, stack: seq<Width>): Typing
    decreases LenSeq(ins), 1
  {
    if ins == [] then Live(stack)
    else
      match CheckOne(p, c, ins[0], stack)
      case Live(stack') => CheckSeq(p, c, ins[1..], stack')
      case other => other
  }

  /** Does the body of a construct end in exactly its results? */
  predicate BodyOk(p: Prog, c: Ctx, body: seq<Ins>, results: seq<Width>)
    decreases LenSeq(body), 2
  {
    var t := CheckSeq(p, c, body, []);
    t == Dead || t == Live(results)
  }

  function CheckOne(p: Prog, c: Ctx, i: Ins, stack: seq<Width>): Typing
    decreases Len(i), 0
  {
    match i
    case L(l) => CheckLeaf(p, c, l, stack)
    case Block(loop, bt, body) =>
      var results := BlockResults(bt);
      if KnownType(bt) && BodyOk(p, Inside(c, stack, loop, results), body, results) then Live(stack + results) else Bad
    case If(bt, thn, els) =>
      var results := BlockResults(bt);
      // the condition stays on the interpreter's stack
      if KnownType(bt) && c.junk && stack == [W32]
        && BodyOk(p, Inside(c, [], false, results), thn, results)
        && BodyOk(p, Inside(c, [], false, results), els, results)
      then Live(results) else Bad
  }

  function CheckLeaf(p: Prog, c: Ctx, l: Leaf, stack: seq<Width>): Typing
  {
    match l
    case P(q) => CheckPlain(p, c, q, stack)
    case Br(n) => if BranchOk(c, n, stack) then Dead else Bad
    case BrIf(n) =>
      if EndsIn(stack, [W32]) && BranchOk(c, n, stack[..|stack| - 1]) then Live(stack[..|stack| - 1]) else Bad
    case Return => if |c.labels| > 0 && BranchOk(c, |c.labels| - 1, stack) then Dead else Bad
    case Call(f) =>
      if f < |p.fns| && p.fns[f].Some? then
        var fn := p.fns[f].value;
        CheckCall(c, fn.params, fn.results, fn.params != [] || fn.junk, stack)
      else Bad
    case CallIndirect(t) =>
      if t < |p.types| && EndsIn(stack, [W32]) then
        CheckCall(c, p.types[t].0, p.types[t].1, true, stack[..|stack| - 1])
      else Bad
  }

  function CheckPlain(p: Prog, c: Ctx, q: Plain, stack: seq<Width>): Typing
  {
    match PlainType(q, c.locals, p.globals)
    case None => Bad
    case Some((ins, outs)) =>
      if !EndsIn(stack, ins) then Bad
      else if q.Unreachable? then Dead
      else Live(stack[..|stack| - |ins|] + outs)
  }

  /** leaves: the call may leave bytes under its results. */
  function CheckCall(c: Ctx, params: seq<Width>, results: seq<Width>, leaves: bool, stack: seq<Width>): Typing
  {
    if EndsIn(stack, params) && (leaves ==> c.junk && stack == params)
    then Live(stack[..|stack| - |params|] + results) else Bad
  }

  function FnCtx(fn: Fn): Ctx
  {
    Ctx(fn.params + fn.locals, [Label(fn.results, false, fn.junk, true)], fn.junk)
  }

  predicate FnOk(p: Prog, fn: Fn)
  {
    BodyOk(p, FnCtx(fn), fn.body, fn.results)
  }

  /** Every function obeys the discipline: a test on the program's text alone. */
  predicate ProgOk(p: Prog)
  {
    forall f :: 0 <= f < |p.fns| && p.fns[f].Some? ==> FnOk(p, p.fns[f].value)
  }
}
