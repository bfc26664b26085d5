/** The bytecode machine of deep_interp.c as functions of its state. */
module Machine {
  import opened Bytes
  import opened Leb
  import opened Isa
  import opened Alu
  import opened Blocks

  /** A function as the loader describes it. */
  datatype FnInfo = FnInfo(
    isImport: bool,
    params: seq<byte>,     // the parameter types
    results: seq<byte>,
    begin: nat,            // code_begin, as a position in the file's bytes
    size: nat,             // code_size
    offsets: seq<nat>)     // local_var_offsets: each local's byte offset, then the total

  /** What a run never changes. */
  datatype Module = Module(
    code: seq<byte>,
    fns: seq<FnInfo>,
    gtypes: seq<byte>,     // the globals' types
    table: seq<nat>,       // function indices; NO_FUNC where uninitialised
    pages: u32)

  const NO_FUNC: nat := 0xFFFF_FFFF

  /** The mutable part: the operand stack up to sp, the current frame's locals, and so on. */
  datatype State = State(
    stack: seq<byte>,
    locals: seq<byte>,
    globals: seq<u64>,
    memory: seq<byte>,
    jump: int)             // jump_depth

  /**
   End: exec_instructions returned; natural is its result. Fault: the program exits, C leaves the
   behaviour undefined, or the instruction is outside this model. OutOfFuel: the run needs more loop
   rounds or calls than the fuel allows.
   */
  datatype Res = End(natural: bool, s: State) | Fault | OutOfFuel

  function TypeSize(t: byte): nat
  {
    if t == TYPE_I32 || t == TYPE_F32 then 4 else if t == TYPE_I64 || t == TYPE_F64 then 8 else 0
  }

  function TypesSize(ts: seq<byte>): nat
  {
    if ts == [] then 0 else TypeSize(ts[0]) + TypesSize(ts[1..])
  }

  function WidthOf(t: byte): Width { if t == TYPE_I64 || t == TYPE_F64 then W64 else W32 }

  // ----- the operand stack -----

  function Push(s: State, w: Width, v: nat): State { s.(stack := s.stack + Le(v, Size(w))) }

  /** The value of width w on top of the stack. */
  function Top(stack: seq<byte>, w: Width): (r: nat)
    requires |stack| >= Size(w)
    ensures Fits(w, r)
  {
    var b := if |stack| == Size(w) then stack else stack[|stack| - Size(w)..];
    FromLeWidths(b);
    FromLe(b)
  }

  function Rest(stack: seq<byte>, n: nat): seq<byte>
    requires |stack| >= n
  {
    stack[..|stack| - n]
  }

  function Zeros(n: nat): (r: seq<byte>)
    ensures |r| == n
  {
    seq(n, i => 0)
  }

  // ----- plain instructions -----

  /** bytes written into m at position p, as memcpy does. */
  function Splice(m: seq<byte>, p: nat, bytes: seq<byte>): (r: seq<byte>)
    requires p + |bytes| <= |m|
    ensures |r| == |m|
  {
    m[..p] + bytes + m[p + |bytes|..]
  }

  function SignExtend(w: Width, bytes: nat, v: nat): nat
  {
    if bytes == 1 && v >= 0x80 then Cut(w, v - 0x100)
    else if bytes == 2 && v >= 0x8000 then Cut(w, v - 0x1_0000)
    else if bytes == 4 && v >= 0x8000_0000 then Cut(w, v - 0x1_0000_0000)
    else v
  }

  function StepLoad(w: Width, bytes: nat, signed: bool, offset: nat, s: State): Option<State>
  {
    if |s.stack| < 4 then None
    else
      var p := Top(s.stack, W32) + offset;
      if p + bytes > |s.memory| then None
      else
        var v := FromLe(s.memory[p..p + bytes]);
        Some(Push(s.(stack := Rest(s.stack, 4)), w, if signed then SignExtend(w, bytes, v) else v))
  }

  function StepStore(w: Width, bytes: nat, offset: nat, s: State): Option<State>
  {
    if |s.stack| < 4 + Size(w) then None
    else
      var v, rest := Top(s.stack, w), Rest(s.stack, Size(w));
      var p := Top(rest, W32) + offset;
      if p + bytes > |s.memory| then None
      else Some(s.(stack := Rest(rest, 4), memory := Splice(s.memory, p, Le(v, bytes))))
  }

  /** The byte range of local i. */
  predicate HasLocal(offsets: seq<nat>, i: nat, s: State)
  {
    i + 1 < |offsets| && offsets[i] <= offsets[i + 1] <= |s.locals|
  }

  function StepLocal(p: Plain, offsets: seq<nat>, s: State): Option<State>
    requires p.LocalGet? || p.LocalSet? || p.LocalTee?
  {
    if !HasLocal(offsets, p.i, s) then None
    else
      var lo, hi := offsets[p.i], offsets[p.i + 1];
      if p.LocalGet? then Some(s.(stack := s.stack + s.locals[lo..hi]))
      else if |s.stack| < hi - lo then None
      else
        var s' := s.(locals := Splice(s.locals, lo, s.stack[|s.stack| - (hi - lo)..]));
        Some(if p.LocalTee? then s' else s'.(stack := Rest(s.stack, hi - lo)))
  }

  function StepGlobal(m: Module, p: Plain, s: State): Option<State>
    requires p.GlobalGet? || p.GlobalSet?
  {
    if p.i >= |m.gtypes| || p.i >= |s.globals| then None
    else
      var w := WidthOf(m.gtypes[p.i]);
      if p.GlobalGet? then Some(Push(s, w, Cut(w, s.globals[p.i])))
      else if |s.stack| < Size(w) then None
      else Some(s.(globals := s.globals[p.i := Top(s.stack, w)], stack := Rest(s.stack, Size(w))))
  }

  function StepNumeric(p: Plain, s: State): Option<State>
    requires p.Const? || p.Un? || p.Bin? || p.Rel? || p.Cvt?
  {
    match p
    case Const(w, v) => Some(Push(s, w, Cut(w, v)))
    case Un(w, op) =>
      if |s.stack| < Size(w) then None
      else Some(Push(s.(stack := Rest(s.stack, Size(w))), if op == Eqz then W32 else w, CUn(w, op, Top(s.stack, w))))
    case Bin(w, op) =>
      if |s.stack| < 2 * Size(w) then None
      else
        var a, rest := Top(s.stack, w), Rest(s.stack, Size(w));
        (match CBin(w, op, Top(rest, w), a)
         case Some(v) => Some(Push(s.(stack := Rest(rest, Size(w))), w, v))
         case None => None)
    case Rel(w, op) =>
      if |s.stack| < 2 * Size(w) then None
      else
        var a, rest := Top(s.stack, w), Rest(s.stack, Size(w));
        Some(Push(s.(stack := Rest(rest, Size(w))), W32, Bool(CRel(w, op, Top(rest, w), a))))
    case Cvt(op) =>
      var w := if op == WrapI64 then W64 else W32;
      if |s.stack| < Size(w) then None
      else Some(Push(s.(stack := Rest(s.stack, Size(w))), if op == WrapI64 then W32 else W64, CCvt(op, Top(s.stack, w))))
  }

  function StepStack(m: Module, p: Plain, s: State): Option<State>
    requires p.Drop? || p.Select? || p.MemSize? || p.MemGrow?
  {
    match p
    case Drop => if |s.stack| < 4 then None else Some(s.(stack := Rest(s.stack, 4)))
    case Select =>
      if |s.stack| < 12 then None
      else
        var a, r1 := Top(s.stack, W32), Rest(s.stack, 4);
        var b, r2 := Top(r1, W32), Rest(r1, 4);
        Some(Push(s.(stack := Rest(r2, 4)), W32, if a != 0 then Top(r2, W32) else b))
    case MemSize => Some(Push(s, W32, m.pages))
    case MemGrow =>
      // deep_realloc always fails, so only a growth by nothing succeeds
      if |s.stack| < 4 then None
      else Some(Push(s.(stack := Rest(s.stack, 4)), W32, if Top(s.stack, W32) == 0 then m.pages else 0xFFFF_FFFF))
  }

  /** One plain instruction. None: a Fault. */
  function StepPlain(m: Module, offsets: seq<nat>, p: Plain, s: State): Option<State>
  {
    match p
    case Unreachable | BrTable(_) => None
    case Nop => Some(s)
    case Drop | Select | MemSize | MemGrow => StepStack(m, p, s)
    case LocalGet(_) | LocalSet(_) | LocalTee(_) => StepLocal(p, offsets, s)
    case GlobalGet(_) | GlobalSet(_) => StepGlobal(m, p, s)
    case Load(w, n, signed, o) => StepLoad(w, n, signed, o, s)
    case Store(w, n, o) => StepStore(w, n, o, s)
    case Const(_, _) | Un(_, _) | Bin(_, _) | Rel(_, _) | Cvt(_) => StepNumeric(p, s)
  }

  // ----- frames and calls -----

  /** The callee's locals: the argument bytes on top of the stack, then zeros. None: a Fault. */
  function CalleeLocals(m: Module, f: nat, s: State): Option<seq<byte>>
  {
    if f >= |m.fns| || m.fns[f].isImport || |m.fns[f].offsets| == 0 then None
    else
      var n := TypesSize(m.fns[f].params);
      var total := m.fns[f].offsets[|m.fns[f].offsets| - 1];
      if |s.stack| < n || total < n then None
      else Some(s.stack[|s.stack| - n..] + Zeros(total - n))
  }

  /** What call_function does after the callee's code returned. */
  function LeaveCall(caller: State, r: Res): Res
  {
    match r
    case End(_, s) => End(true, s.(locals := caller.locals, jump := if s.jump < 0 then 0 else s.jump))
    case other => other
  }

  function TableEntry(m: Module, s: State): Option<nat>
  {
    if |s.stack| < 4 || Top(s.stack, W32) >= |m.table| then None
    else if m.table[Top(s.stack, W32)] == NO_FUNC then None
    else Some(m.table[Top(s.stack, W32)])
  }

  /** br: the depth plus one, as uint32_t, stored in the int jump_depth. */
  function JumpFor(n: u32): int { Signed32(Wrap32(n + 1)) }

  // ----- the interpreter loop -----

  /** What the switch did with one instruction. */
  datatype Stepped = Next(ip: nat, s: State) | Stop(r: Res)

  /** exec_instructions from position ip of a frame whose code ends before end. */
  function Exec(m: Module, fuel: nat, offsets: seq<nat>, ip: nat, end: nat, s: State): (r: Res)
    decreases fuel, |m.code| - ip, 3
  {
    if s.jump != 0 then End(false, s.(jump := s.jump - 1))
    else if ip >= end then End(true, s)
    else if ip >= |m.code| then Fault
    else
      match Step(m, fuel, offsets, ip, s)
      case Next(ip', s') => Exec(m, fuel, offsets, ip', end, s')
      case Stop(r) => r
  }

  function Step(m: Module, fuel: nat, offsets: seq<nat>, ip: nat, s: State): (r: Stepped)
    requires ip < |m.code|
    ensures r.Next? ==> ip < r.ip
    decreases fuel, |m.code| - ip, 2
  {
    var op := m.code[ip];
    if op == OP_BLOCK || op == OP_LOOP then
      if ip + 1 >= |m.code| then Stop(Fault)
      else
        match Scan(m.code, ip + 2, 1)
        case None => Stop(Fault)
        case Some(stop) => After(stop, EnterFrame(m, fuel, offsets, ip + 2, stop, op == OP_LOOP, s))
    else if op == OP_IF then StepIf(m, fuel, offsets, ip, s)
    else if op == OP_ELSE || op == OP_END then Next(ip + 1, s)
    else if op == OP_BR || op == OP_BR_IF then StepBranch(m, ip, s)
    else if op == OP_RETURN then Next(ip + 1, s.(jump := -1))
    else if op == OP_CALL then
      match ReadU32(m.code, ip + 1)
      case PastEnd => Stop(Fault)
      case Got(f, next) => After(next, CallFunction(m, fuel, f, s))
    else if op == OP_CALL_INDIRECT then
      match (ReadU32(m.code, ip + 1), TableEntry(m, s))
      case (Got(_, next), Some(f)) => After(next + 1, CallFunction(m, fuel, f, s.(stack := Rest(s.stack, 4))))
      case _ => Stop(Fault)
    else
      match Fetch(m.code, ip)
      case NotPlain => Stop(Fault)
      case Fetched(p, next) =>
        (match StepPlain(m, offsets, p, s)
         case Some(s') => Next(next, s')
         case None => Stop(Fault))
  }

  function After(ip: nat, r: Res): Stepped
  {
    if r.End? then Next(ip, r.s) else Stop(r)
  }

  function StepBranch(m: Module, ip: nat, s: State): (r: Stepped)
    requires ip < |m.code|
    ensures r.Next? ==> ip < r.ip
  {
    match ReadU32(m.code, ip + 1)
    case PastEnd => Stop(Fault)
    case Got(n, next) =>
      if m.code[ip] == OP_BR then Next(next, s.(jump := JumpFor(n)))
      else if |s.stack| < 4 then Stop(Fault)
      else Next(next, s.(stack := Rest(s.stack, 4), jump := if Top(s.stack, W32) != 0 then JumpFor(n) else 0))
  }

  /** The condition is read but env->sp, from which the branch's frame starts, still has it on the stack. */
  function StepIf(m: Module, fuel: nat, offsets: seq<nat>, ip: nat, s: State): (r: Stepped)
    requires ip < |m.code|
    ensures r.Next? ==> ip < r.ip
    decreases fuel, |m.code| - ip, 1
  {
    if ip + 1 >= |m.code| || |s.stack| < 4 then Stop(Fault)
    else
      match Scan(m.code, ip + 2, 1)
      case None => Stop(Fault)
      case Some(mid) =>
        match Scan(m.code, mid, 1)
        case None => Stop(Fault)
        case Some(stop) =>
          After(stop, if Top(s.stack, W32) != 0 then EnterFrame(m, fuel, offsets, ip + 2, mid, false, s)
                      else EnterFrame(m, fuel, offsets, mid, stop, false, s))
  }

  /**
   enter_frame on the code from start to stop. Leaving a loop frame by a branch whose countdown has
   reached zero runs it again with the stack pointer of its entry; stack bytes above the current
   pointer are not part of the state, so a body that ended below its entry faults here.
   */
  function EnterFrame(m: Module, fuel: nat, offsets: seq<nat>, start: nat, stop: nat, loop: bool, s: State): Res
    decreases fuel, |m.code| - start, 4
  {
    match Exec(m, fuel, offsets, start, stop, s)
    case End(natural, s') =>
      if !natural && s'.jump == 0 && loop then
        if |s'.stack| < |s.stack| then Fault
        else if fuel == 0 then OutOfFuel
        else EnterFrame(m, fuel - 1, offsets, start, stop, true, s'.(stack := s'.stack[..|s.stack|]))
      else End(natural, s')
    case other => other
  }

  function CallFunction(m: Module, fuel: nat, f: nat, s: State): Res
    decreases fuel, 0, 0
  {
    match CalleeLocals(m, f, s)
    case None => Fault
    case Some(locals) =>
      if fuel == 0 then OutOfFuel
      else
        var fn := m.fns[f];
        LeaveCall(s, Exec(m, fuel - 1, fn.offsets, fn.begin, fn.begin + fn.size, s.(locals := locals)))
  }

  // ----- the main function -----

  /** What call_main returns: the bits of a value of main's result type. */
  datatype Final = Returned(t: byte, n: nat) | Crashed | Unfinished

  /** The start function, if there is one, and then main, in a frame that holds s with an empty stack. */
  function MainRun(m: Module, fuel: nat, start: Option<nat>, main: nat, s: State): Res
    requires main < |m.fns|
  {
    var fn := m.fns[main];
    match if start.None? then End(true, s) else CallFunction(m, fuel, start.value, s)
    case End(_, s') => Exec(m, fuel, fn.offsets, fn.begin, fn.begin + fn.size, s'.(stack := []))
    case other => other
  }

  predicate IsValueType(t: byte) { t == TYPE_I32 || t == TYPE_I64 || t == TYPE_F32 || t == TYPE_F64 }

  function FinalOf(results: seq<byte>, r: Res): Final
  {
    match r
    case OutOfFuel => Unfinished
    case Fault => Crashed
    case End(_, s) =>
      if results == [] || !IsValueType(results[0]) || |s.stack| < Size(WidthOf(results[0])) then Crashed
      else Returned(results[0], Top(s.stack, WidthOf(results[0])))
  }
}
