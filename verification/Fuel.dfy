/**
 Fuel bounds a run and does nothing else: whatever ends with some fuel ends the same way with more, in the standard's
 semantics and in the machine. So what a program does is one result, or to go on for ever.
 */
module Fuel {
  import opened Bytes
  import opened Leb
  import opened Isa
  import opened Blocks
  import opened Machine
  import opened Wasm
  import opened Loader
  import opened Program

  // ----- the standard -----

  lemma {:induction false} MoreSeq(p: Prog, fuel: nat, ins: seq<Ins>, s: Store, vs: seq<Val>)
    ensures !EvalSeq(p, fuel, ins, s, vs).NoFuel? ==> EvalSeq(p, fuel + 1, ins, s, vs) == EvalSeq(p, fuel, ins, s, vs)
    decreases fuel, LenSeq(ins), 3
  {
    hide EvalOne;
    if ins != [] {
      MoreOne(p, fuel, ins[0], s, vs);
      var o := EvalOne(p, fuel, ins[0], s, vs);
      if o.Normal? { MoreSeq(p, fuel, ins[1..], o.s, o.stack); }
    }
  }

  lemma {:induction false} MoreOne(p: Prog, fuel: nat, i: Ins, s: Store, vs: seq<Val>)
    ensures !EvalOne(p, fuel, i, s, vs).NoFuel? ==> EvalOne(p, fuel + 1, i, s, vs) == EvalOne(p, fuel, i, s, vs)
    decreases fuel, Len(i), 2
  {
    hide EvalBody, EvalCall, EvalPlain;
    match i
    case L(Call(f)) => if f < |p.fns| && p.fns[f].Some? { MoreCall(p, fuel, f, s, vs); }
    case L(CallIndirect(t)) =>
      if |vs| >= 1 && vs[|vs| - 1].n < |p.table| && p.table[vs[|vs| - 1].n].Some? {
        var f := p.table[vs[|vs| - 1].n].value;
        if f < |p.fns| && p.fns[f].Some? { MoreCall(p, fuel, f, s, vs[..|vs| - 1]); }
      }
    case L(_) =>
    case Block(loop, bt, body) => MoreBody(p, fuel, body, loop, |BlockResults(bt)|, s);
    case If(bt, thn, els) =>
      MoreBody(p, fuel, thn, false, |BlockResults(bt)|, s);
      MoreBody(p, fuel, els, false, |BlockResults(bt)|, s);
  }

  lemma {:induction false} MoreBody(p: Prog, fuel: nat, body: seq<Ins>, loop: bool, arity: nat, s: Store)
    ensures !EvalBody(p, fuel, body, loop, arity, s).NoFuel?
      ==> EvalBody(p, fuel + 1, body, loop, arity, s) == EvalBody(p, fuel, body, loop, arity, s)
    decreases fuel, LenSeq(body), 4
  {
    hide EvalSeq;
    MoreSeq(p, fuel, body, s, []);
    match EvalSeq(p, fuel, body, s, [])
    case Jump(n, s', vs) => if n == 0 && loop && fuel > 0 { MoreBody(p, fuel - 1, body, loop, arity, s'); }
    case _ =>
  }

  lemma {:induction false} MoreCall(p: Prog, fuel: nat, f: nat, s: Store, vs: seq<Val>)
    requires f < |p.fns| && p.fns[f].Some?
    ensures !EvalCall(p, fuel, f, s, vs).NoFuel? ==> EvalCall(p, fuel + 1, f, s, vs) == EvalCall(p, fuel, f, s, vs)
    decreases fuel, 0, 0
  {
    hide EvalSeq;
    var fn := p.fns[f].value;
    if fuel > 0 && |vs| >= |fn.params| {
      MoreSeq(p, fuel - 1, fn.body, s.(locals := Last(vs, |fn.params|) + ZeroVals(fn.locals)), []);
    }
  }

  // ----- the machine -----

  lemma {:induction false} MoreExec(m: Module, fuel: nat, offsets: seq<nat>, ip: nat, end: nat, s: State)
    ensures !Exec(m, fuel, offsets, ip, end, s).OutOfFuel?
      ==> Exec(m, fuel + 1, offsets, ip, end, s) == Exec(m, fuel, offsets, ip, end, s)
    decreases fuel, |m.code| - ip, 3
  {
    hide Step;
    if s.jump == 0 && ip < end && ip < |m.code| {
      MoreStep(m, fuel, offsets, ip, s);
      var r := Step(m, fuel, offsets, ip, s);
      if r.Next? { MoreExec(m, fuel, offsets, r.ip, end, r.s); }
    }
  }

  lemma {:induction false} MoreStep(m: Module, fuel: nat, offsets: seq<nat>, ip: nat, s: State)
    requires ip < |m.code|
    ensures Step(m, fuel, offsets, ip, s) != Stop(OutOfFuel)
      ==> Step(m, fuel + 1, offsets, ip, s) == Step(m, fuel, offsets, ip, s)
    decreases fuel, |m.code| - ip, 2
  {
    hide EnterFrame, CallFunction, StepIf, StepPlain, Scan, StepBranch, ReadU32, Fetch;
    var op := m.code[ip];
    if op == OP_BLOCK || op == OP_LOOP {
      if ip + 1 < |m.code| && Scan(m.code, ip + 2, 1).Some? {
        MoreFrame(m, fuel, offsets, ip + 2, Scan(m.code, ip + 2, 1).value, op == OP_LOOP, s);
      }
    } else if op == OP_IF {
      MoreIf(m, fuel, offsets, ip, s);
    } else if op == OP_CALL {
      var r := ReadU32(m.code, ip + 1);
      if r.Got? { MoreCallFunction(m, fuel, r.value, s); }
    } else if op == OP_CALL_INDIRECT {
      var e := TableEntry(m, s);
      if e.Some? { MoreCallFunction(m, fuel, e.value, s.(stack := Rest(s.stack, 4))); }
    }
  }

  lemma {:induction false} MoreIf(m: Module, fuel: nat, offsets: seq<nat>, ip: nat, s: State)
    requires ip < |m.code|
    ensures StepIf(m, fuel, offsets, ip, s) != Stop(OutOfFuel)
      ==> StepIf(m, fuel + 1, offsets, ip, s) == StepIf(m, fuel, offsets, ip, s)
    decreases fuel, |m.code| - ip, 1
  {
    hide EnterFrame, Scan, Top;
    if ip + 1 < |m.code| && Scan(m.code, ip + 2, 1).Some? {
      var mid := Scan(m.code, ip + 2, 1).value;
      if Scan(m.code, mid, 1).Some? {
        MoreFrame(m, fuel, offsets, ip + 2, mid, false, s);
        MoreFrame(m, fuel, offsets, mid, Scan(m.code, mid, 1).value, false, s);
      }
    }
  }

  lemma {:induction false} MoreFrame(m: Module, fuel: nat, offsets: seq<nat>, start: nat, stop: nat, loop: bool, s: State)
    ensures !EnterFrame(m, fuel, offsets, start, stop, loop, s).OutOfFuel?
      ==> EnterFrame(m, fuel + 1, offsets, start, stop, loop, s) == EnterFrame(m, fuel, offsets, start, stop, loop, s)
    decreases fuel, |m.code| - start, 4
  {
    hide Exec;
    MoreExec(m, fuel, offsets, start, stop, s);
    match Exec(m, fuel, offsets, start, stop, s)
    case End(natural, s') =>
      if !natural && s'.jump == 0 && loop && |s'.stack| >= |s.stack| && fuel > 0 {
        MoreFrame(m, fuel - 1, offsets, start, stop, true, s'.(stack := s'.stack[..|s.stack|]));
      }
    case _ =>
  }

  lemma {:induction false} MoreCallFunction(m: Module, fuel: nat, f: nat, s: State)
    ensures !CallFunction(m, fuel, f, s).OutOfFuel?
      ==> CallFunction(m, fuel + 1, f, s) == CallFunction(m, fuel, f, s)
    decreases fuel, 0, 0
  {
    hide Exec, TypesSize;
    match CalleeLocals(m, f, s)
    case Some(locals) =>
      if fuel > 0 {
        var fn := m.fns[f];
        MoreExec(m, fuel - 1, fn.offsets, fn.begin, fn.begin + fn.size, s.(locals := locals));
      }
    case None =>
  }

  lemma MoreMain(m: Module, fuel: nat, start: Option<nat>, main: nat, s: State)
    requires main < |m.fns|
    ensures !MainRun(m, fuel, start, main, s).OutOfFuel?
      ==> MainRun(m, fuel + 1, start, main, s) == MainRun(m, fuel, start, main, s)
  {
    hide Exec, CallFunction;
    var fn := m.fns[main];
    if start.Some? { MoreCallFunction(m, fuel, start.value, s); }
    match if start.None? then End(true, s) else CallFunction(m, fuel, start.value, s)
    case End(_, s') => MoreExec(m, fuel, fn.offsets, fn.begin, fn.begin + fn.size, s'.(stack := []));
    case _ =>
  }

  // ----- files -----

  lemma MoreFile(file: seq<byte>, fuel: nat)
    ensures RunFile(file, fuel) != Unfinished ==> RunFile(file, fuel + 1) == RunFile(file, fuel)
  {
    hide LoadFile, MainRun, Top, InitialState, FindMain;
    match LoadFile(file)
    case Some(l) =>
      if Runnable(l) {
        var main := FindMain(l.exports).value;
        MoreMain(MachineOf(file, l), fuel, l.start, main, InitialState(l, l.fns[main]));
      }
    case None =>
  }

  /** What any file returns with enough fuel, it returns with more. */
  lemma {:induction false} FileStays(file: seq<byte>, fuel: nat, more: nat)
    requires RunFile(file, fuel) != Unfinished && fuel <= more
    ensures RunFile(file, more) == RunFile(file, fuel)
    decreases more
  {
    hide RunFile;
    if fuel < more {
      FileStays(file, fuel, more - 1);
      MoreFile(file, more - 1);
    }
  }

  /** What running a file comes to, with as much fuel as it takes; None: it runs for ever. */
  ghost function FileResult(file: seq<byte>): Option<Final>
  {
    if fuel: nat :| RunFile(file, fuel) != Unfinished then Some(RunFile(file, fuel)) else None
  }

  /** There is only one such result, and it is what every run that ends returns. */
  lemma FileResultIs(file: seq<byte>, fuel: nat)
    ensures RunFile(file, fuel) != Unfinished ==> FileResult(file) == Some(RunFile(file, fuel))
    ensures FileResult(file) == None ==> RunFile(file, fuel) == Unfinished
    ensures FileResult(file).Some? ==> FileResult(file).value != Unfinished
  {
    hide RunFile;
    if n: nat :| RunFile(file, n) != Unfinished {
      forall n: nat, k: nat | RunFile(file, n) != Unfinished && RunFile(file, k) != Unfinished
        ensures RunFile(file, n) == RunFile(file, k)
      {
        if n <= k { FileStays(file, n, k); } else { FileStays(file, k, n); }
      }
    }
  }
}
