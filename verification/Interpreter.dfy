/**
 The interpreter as it runs: one environment whose fields it updates, and frames, locals areas, block
 descriptors and type records that it allocates and frees.
 */
module Interpreter {
  import opened Bytes
  import opened Leb
  import opened Isa
  import opened Alu
  import opened Blocks
  import opened Machine

  /** How exec_instructions returned: true, false, or not at all; Starved: the fuel ran out. */
  datatype Ended = Natural | Jumped | Failed | Starved

  /** DEEPFunction: made by the loader for a function, by the interpreter for each construct it enters. */
  class Function {
    const info: FnInfo

    constructor (info: FnInfo)
      ensures this.info == info
    {
      this.info := info;
    }
  }

  /** DEEPType: a construct's type record, with room for one result type if it has one. */
  class TypeRecord {
    const types: array?<byte>

    constructor (bt: byte)
      ensures (types == null <==> bt == TYPE_VOID) && (types != null ==> fresh(types))
    {
      if bt == TYPE_VOID { types := null; } else { types := new byte[1](_ => bt); }
    }
  }

  class Frame {
    const sp: nat
    const fn: Function
    const loop: bool
    const locals: array<byte>
    const prev: Frame?

    constructor (sp: nat, fn: Function, loop: bool, locals: array<byte>, prev: Frame?)
      ensures this.sp == sp && this.fn == fn && this.loop == loop && this.locals == locals && this.prev == prev
    {
      this.sp, this.fn, this.loop, this.locals, this.prev := sp, fn, loop, locals, prev;
    }
  }

  /** The result of a run, in the terms of the machine's functions. */
  ghost function ResultOf(r: Ended, s: State): Res
  {
    match r case Natural => End(true, s) case Jumped => End(false, s) case Failed => Fault case Starved => OutOfFuel
  }

  /** The frames under the top one. */
  lemma Shorter(frames: seq<Frame>, index: nat, top: Frame, below: seq<Frame>)
    requires index < |frames| && |below| == index && frames[..index + 1] == below + [top]
    ensures frames[..index] == below
  {
    assert frames[..index] == frames[..index + 1][..index];
  }

  lemma SpliceNone(s: seq<byte>, at: nat)
    requires at <= |s|
    ensures Splice(s, at, []) == s
  {
  }

  lemma SpliceNext(s: seq<byte>, at: nat, bytes: seq<byte>, i: nat)
    requires at + |bytes| <= |s| && i < |bytes|
    ensures Splice(s, at, bytes[..i])[at + i := bytes[i]] == Splice(s, at, bytes[..i + 1])
  {
    assert bytes[..i + 1] == bytes[..i] + [bytes[i]];
  }

  /** The size of a function's locals area. */
  function Total(fn: FnInfo): nat
    requires |fn.offsets| > 0
  {
    fn.offsets[|fn.offsets| - 1]
  }

  class Env {
    const m: Module
    const functions: seq<Function>
    const memory: array<byte>
    const globals: array<u64>
    var curFrame: Frame
    var frames: seq<Frame>
    var index: nat              // current_frame_index
    var stack: seq<byte>        // the operand stack's bytes, popped ones included
    var sp: nat
    var localVars: array<byte>
    var jump: int
    ghost var live: set<object> // what has been allocated and not freed

    /** deep_main's environment and call_main's frame for the function main. */
    constructor (m: Module, functions: seq<Function>, memory: array<byte>, globals: array<u64>, main: nat)
      requires |functions| == |m.fns| && (forall i :: 0 <= i < |functions| ==> functions[i].info == m.fns[i])
      requires main < |m.fns| && |m.fns[main].offsets| > 0 && (memory as object) != globals
      ensures this.m == m && this.functions == functions && this.memory == memory && this.globals == globals
      ensures Valid() && index == 0 && live == {curFrame, localVars} && fresh(localVars) && fresh(curFrame)
      ensures curFrame.sp == sp == 0 && curFrame.fn == functions[main]
      ensures Abs(0) == State([], Zeros(Total(m.fns[main])), globals[..], memory[..], 0)
    {
      this.m, this.functions, this.memory, this.globals := m, functions, memory, globals;
      var locals := new byte[Total(m.fns[main])](_ => 0);
      var frame := new Frame(0, functions[main], false, locals, null);
      curFrame, frames, index := frame, [frame], 0;
      stack, sp, jump := [], 0, 0;
      localVars := locals;
      live := {frame, locals};
      new;
      assert localVars[..] == Zeros(Total(m.fns[main]));
    }

    /** The frame discipline: the current frame is the one the control stack's index names, its locals are current. */
    ghost predicate Valid()
      reads this
    {
      && index < |frames| && curFrame == frames[index] && localVars == curFrame.locals
      && curFrame in live && localVars in live
      && Apart(localVars)
      && |functions| == |m.fns| && (forall i :: 0 <= i < |functions| ==> functions[i].info == m.fns[i])
    }

    ghost predicate Apart(locals: array<byte>)
    {
      var l: object, y: object, g: object := locals, memory, globals;
      l != y && l != g && y != g
    }

    /** The machine's state when the operand stack's pointer is p. */
    ghost function Abs(p: nat): State
      requires p <= |stack|
      reads this, memory, globals, localVars
    {
      State(stack[..p], localVars[..], globals[..], memory[..], jump)
    }

    /** What a run must leave as it found it: the current frame, all frames under it, the live set. */
    twostate predicate Kept()
      requires old(index) < |old(frames)|
      reads this
    {
      && index == old(index) < |frames| && frames[..index + 1] == old(frames[..index + 1])
      && curFrame == old(curFrame) && localVars == old(localVars) && live == old(live)
    }

    /** deep_malloc: what it returns is live. */
    ghost method Malloc(o: object)
      requires o !in live
      modifies `live
      ensures live == old(live) + {o}
    {
      live := live + {o};
    }

    /** deep_free: only of something live. */
    ghost method Free(o: object)
      requires o in live
      modifies `live
      ensures live == old(live) - {o}
    {
      live := live - {o};
    }

    // ----- operand stack -----

    method Push(p: nat, bytes: seq<byte>) returns (p': nat)
      requires p <= |stack|
      modifies `stack
      ensures p' == |stack| && stack == old(stack[..p]) + bytes
    {
      stack := stack[..p] + bytes;
      p' := |stack|;
    }

    method PopValue(p: nat, w: Width) returns (v: nat, p': nat)
      requires Size(w) <= p <= |stack|
      ensures v == Top(stack[..p], w) && p' == p - Size(w) && stack[..p'] == Rest(stack[..p], Size(w))
    {
      p' := p - Size(w);
      v := Top(stack[..p], w);
    }

    // ----- plain instructions -----

    /** memcpy into a buffer. */
    method Copy(a: array<byte>, at: nat, bytes: seq<byte>)
      requires at + |bytes| <= a.Length
      modifies a
      ensures a[..] == Splice(old(a[..]), at, bytes)
    {
      hide Splice;
      SpliceNone(a[..], at);
      assert bytes[..0] == [];
      for i := 0 to |bytes|
        invariant a[..] == Splice(old(a[..]), at, bytes[..i])
      {
        ghost var before := a[..];
        a[at + i] := bytes[i];
        assert a[..] == before[at + i := bytes[i]];
        SpliceNext(old(a[..]), at, bytes, i);
      }
      assert bytes[..|bytes|] == bytes;
    }

    /** What executing one plain instruction means for the state. */
    ghost predicate Stepped(ok: bool, p': nat, r: Option<State>)
      reads this, memory, globals, localVars
    {
      ok == r.Some? && (ok ==> p' <= |stack| && Abs(p') == r.value)
    }

    method ExecLoad(w: Width, n: nat, signed: bool, offset: nat, p: nat) returns (ok: bool, p': nat)
      requires Valid() && p <= |stack|
      modifies `stack
      ensures Stepped(ok, p', StepLoad(w, n, signed, offset, old(Abs(p))))
    {
      hide Top, Fits;
      if p < 4 { return false, p; }
      var base;
      base, p' := PopValue(p, W32);
      var at := base + offset;
      if at + n > memory.Length { return false, p'; }
      var v := FromLe(memory[at..at + n]);
      assert memory[at..at + n] == memory[..][at..at + n];
      p' := Push(p', Le(if signed then Machine.SignExtend(w, n, v) else v, Size(w)));
      ok := true;
      Whole();
    }

    lemma Whole()
      ensures stack[..|stack|] == stack
    {
    }

    method ExecStore(w: Width, n: nat, offset: nat, p: nat) returns (ok: bool, p': nat)
      requires Valid() && p <= |stack|
      modifies memory
      ensures Stepped(ok, p', StepStore(w, n, offset, old(Abs(p))))
    {
      hide Top, Fits, Splice;
      if p < 4 + Size(w) { return false, p; }
      var v, base;
      v, p' := PopValue(p, w);
      base, p' := PopValue(p', W32);
      var at := base + offset;
      if at + n > memory.Length { return false, p'; }
      Copy(memory, at, Le(v, n));
      ok := true;
    }

    method ExecLocal(q: Plain, offsets: seq<nat>, p: nat) returns (ok: bool, p': nat)
      requires Valid() && p <= |stack| && (q.LocalGet? || q.LocalSet? || q.LocalTee?)
      modifies `stack, localVars
      ensures Stepped(ok, p', StepLocal(q, offsets, old(Abs(p))))
    {
      hide Splice;
      p' := p;
      if q.i + 1 >= |offsets| { return false, p; }
      var lo, hi := offsets[q.i], offsets[q.i + 1];
      if lo > hi || hi > localVars.Length { return false, p; }
      if q.LocalGet? {
        assert localVars[lo..hi] == localVars[..][lo..hi];
        p' := Push(p, localVars[lo..hi]);
        Whole();
      } else {
        if p < hi - lo { return false, p; }
        assert stack[p - (hi - lo)..p] == stack[..p][p - (hi - lo)..];
        Copy(localVars, lo, stack[p - (hi - lo)..p]);
        if q.LocalSet? {
          p' := p - (hi - lo);
          assert stack[..p'] == Rest(stack[..p], hi - lo);
        }
      }
      ok := true;
    }

    method ExecGlobal(q: Plain, p: nat) returns (ok: bool, p': nat)
      requires Valid() && p <= |stack| && (q.GlobalGet? || q.GlobalSet?)
      modifies `stack, globals
      ensures Stepped(ok, p', StepGlobal(m, q, old(Abs(p))))
    {
      hide Top;
      p' := p;
      if q.i >= |m.gtypes| || q.i >= globals.Length { return false, p; }
      var w := WidthOf(m.gtypes[q.i]);
      if q.GlobalGet? {
        p' := Push(p, Le(Cut(w, globals[q.i]), Size(w)));
        Whole();
      } else {
        if p < Size(w) { return false, p; }
        var v;
        v, p' := PopValue(p, w);
        WidthFits(w, v);
        ghost var before := globals[..];
        var u: u64 := v;
        globals[q.i] := u;
        assert globals[..] == before[q.i := u];
      }
      ok := true;
    }

    static lemma WidthFits(w: Width, v: nat)
      requires Fits(w, v)
      ensures v < 0x1_0000_0000_0000_0000
    {
    }

    /** drop, select, memory.size and memory.grow. */
    method ExecStack(q: Plain, p: nat) returns (ok: bool, p': nat)
      requires Valid() && p <= |stack| && (q.Drop? || q.Select? || q.MemSize? || q.MemGrow?)
      modifies `stack
      ensures Stepped(ok, p', StepStack(m, q, old(Abs(p))))
    {
      hide Top, Le;
      p' := p;
      var a, b, c;
      match q {
        case Drop =>
          if p < 4 { return false, p; }
          a, p' := PopValue(p, W32);
        case Select =>
          if p < 12 { return false, p; }
          a, p' := PopValue(p, W32);
          b, p' := PopValue(p', W32);
          c, p' := PopValue(p', W32);
          p' := Push(p', Le(if a != 0 then c else b, 4));
          Whole();
        case MemSize =>
          p' := Push(p, Le(m.pages, 4));
          Whole();
        case MemGrow =>
          if p < 4 { return false, p; }
          a, p' := PopValue(p, W32);
          p' := Push(p', Le(if a == 0 then m.pages else 0xFFFF_FFFF, 4));
          Whole();
      }
      ok := true;
    }

    method ExecBinary(q: Plain, p: nat) returns (ok: bool, p': nat)
      requires Valid() && p <= |stack| && (q.Bin? || q.Rel?)
      modifies `stack
      ensures Stepped(ok, p', StepNumeric(q, old(Abs(p))))
    {
      hide Top, Le, CBin, CRel, Fits;
      if p < 2 * Size(q.w) { return false, p; }
      var a, b;
      a, p' := PopValue(p, q.w);
      b, p' := PopValue(p', q.w);
      if q.Bin? {
        var v := CBin(q.w, q.bop, b, a);
        if v.None? { return false, p'; }
        p' := Push(p', Le(v.value, Size(q.w)));
      } else {
        p' := Push(p', Le(Bool(CRel(q.w, q.rop, b, a)), 4));
      }
      Whole();
      ok := true;
    }

    method ExecUnary(q: Plain, p: nat) returns (ok: bool, p': nat)
      requires Valid() && p <= |stack| && (q.Const? || q.Un? || q.Cvt?)
      modifies `stack
      ensures Stepped(ok, p', StepNumeric(q, old(Abs(p))))
    {
      hide Top, Le, CUn, CCvt, Fits, Cut;
      var a;
      match q {
        case Const(w, v) =>
          p' := Push(p, Le(Cut(w, v), Size(w)));
        case Un(w, op) =>
          if p < Size(w) { return false, p; }
          a, p' := PopValue(p, w);
          p' := Push(p', Le(CUn(w, op, a), Size(if op == Eqz then W32 else w)));
        case Cvt(op) =>
          var w := if op == WrapI64 then W64 else W32;
          if p < Size(w) { return false, p; }
          a, p' := PopValue(p, w);
          p' := Push(p', Le(CCvt(op, a), Size(if op == WrapI64 then W32 else W64)));
      }
      Whole();
      ok := true;
    }

    /** The plain cases of the switch. */
    method ExecPlain(q: Plain, offsets: seq<nat>, p: nat) returns (ok: bool, p': nat)
      requires Valid() && p <= |stack|
      modifies `stack, memory, globals, localVars
      ensures Stepped(ok, p', StepPlain(m, offsets, q, old(Abs(p))))
    {
      hide StepLoad, StepStore, StepLocal, StepGlobal, StepStack, StepNumeric;
      match q
      case Unreachable | BrTable(_) => return false, p;
      case Nop => return true, p;
      case Drop | Select | MemSize | MemGrow => ok, p' := ExecStack(q, p);
      case LocalGet(_) | LocalSet(_) | LocalTee(_) => ok, p' := ExecLocal(q, offsets, p);
      case GlobalGet(_) | GlobalSet(_) => ok, p' := ExecGlobal(q, p);
      case Load(w, n, signed, o) => ok, p' := ExecLoad(w, n, signed, o, p);
      case Store(w, n, o) => ok, p' := ExecStore(w, n, o, p);
      case Bin(_, _) | Rel(_, _) => ok, p' := ExecBinary(q, p);
      case Const(_, _) | Un(_, _) | Cvt(_) => ok, p' := ExecUnary(q, p);
    }

    // ----- frames -----

    /** The control stack's next entry. */
    method PushFrame(frame: Frame)
      requires index < |frames|
      modifies `frames, `index, `curFrame
      ensures index == old(index) + 1 < |frames| && frames[index] == frame && curFrame == frame
      ensures frames[..index] == old(frames[..index + 1])
    {
      curFrame := frame;
      index := index + 1;
      frames := if index < |frames| then frames[index := frame] else frames + [frame];
    }

    /** What a method that runs code promises: the machine's result, and everything it borrowed given back. */
    twostate predicate Ran(r: Ended, spec: Res)
      requires old(index) < |old(frames)|
      reads this, memory, globals, localVars
    {
      match spec
      case End(natural, s) => r == (if natural then Natural else Jumped) && Valid() && Kept() && sp <= |stack| && Abs(sp) == s
      case Fault => r == Failed
      case OutOfFuel => r == Starved
    }

    /** The same for one instruction: r is Natural when execution goes on at ip with the stack pointer p. */
    twostate predicate Did(r: Ended, ip: nat, p: nat, spec: Stepped)
      requires old(index) < |old(frames)|
      reads this, memory, globals, localVars
    {
      match spec
      case Next(ip', s) => r == Natural && Valid() && Kept() && ip == ip' && p <= |stack| && Abs(p) == s
      case Stop(Fault) => r == Failed
      case Stop(OutOfFuel) => r == Starved
      case Stop(End(_, _)) => false
    }

    /** The loop of exec_instructions, in the current frame. */
    method ExecInstructions(fuel: nat) returns (r: Ended)
      requires Valid() && curFrame.sp <= |stack|
      modifies this, memory, globals, localVars
      ensures Ran(r, Exec(m, fuel, old(curFrame.fn.info.offsets), old(curFrame.fn.info.begin),
                          old(curFrame.fn.info.begin + curFrame.fn.info.size), old(Abs(curFrame.sp))))
      decreases fuel, |m.code| - curFrame.fn.info.begin, 3
    {
      hide Step;
      var info := curFrame.fn.info;
      var p: nat, ip: nat, end: nat := curFrame.sp, info.begin, info.begin + info.size;
      ghost var spec := Exec(m, fuel, info.offsets, ip, end, Abs(p));
      while jump != 0 || ip < end
        invariant Valid() && Kept() && p <= |stack| && info.begin <= ip
        invariant spec == Exec(m, fuel, info.offsets, ip, end, Abs(p))
        decreases if jump != 0 then 0 else 1, |m.code| - ip
      {
        if jump != 0 {
          jump := jump - 1;
          sp := p;
          return Jumped;
        }
        if ip >= |m.code| { return Failed; }
        r, ip, p := ExecOne(fuel, ip, p);
        if r != Natural { return; }
      }
      sp := p;
      return Natural;
    }

    /** One turn of the switch. */
    method ExecOne(fuel: nat, ip: nat, p: nat) returns (r: Ended, ip': nat, p': nat)
      requires Valid() && p <= |stack| && ip < |m.code| && jump == 0
      modifies this, memory, globals, localVars
      ensures Did(r, ip', p', Step(m, fuel, old(curFrame.fn.info.offsets), ip, old(Abs(p))))
      decreases fuel, |m.code| - ip, 2
    {
      hide Scan, ReadU32, Fetch, StepPlain, StepIf, StepBranch, Machine.EnterFrame, Machine.CallFunction, TableEntry,
        Top;
      var op := m.code[ip];
      r, ip', p' := Natural, ip + 1, p;
      if op == OP_BLOCK || op == OP_LOOP {
        r, ip', p' := ExecBlock(fuel, ip, p, op == OP_LOOP);
      } else if op == OP_IF {
        r, ip', p' := ExecIf(fuel, ip, p);
      } else if op == OP_ELSE || op == OP_END {
      } else if op == OP_BR || op == OP_BR_IF {
        r, ip', p' := ExecBranch(ip, p);
      } else if op == OP_RETURN {
        jump := -1;
      } else if op == OP_CALL {
        var f := ReadU32(m.code, ip + 1);
        if f.PastEnd? { return Failed, ip, p; }
        sp := p;
        r := CallFunction(f.value, fuel);
        ip', p' := f.next, sp;
      } else if op == OP_CALL_INDIRECT {
        r, ip', p' := ExecIndirect(fuel, ip, p);
      } else {
        var q := Fetch(m.code, ip);
        if q.NotPlain? { return Failed, ip, p; }
        var ok;
        ok, p' := ExecPlain(q.p, curFrame.fn.info.offsets, p);
        r, ip' := if ok then Natural else Failed, q.next;
      }
    }

    method ExecBranch(ip: nat, p: nat) returns (r: Ended, ip': nat, p': nat)
      requires Valid() && p <= |stack| && ip < |m.code|
      modifies `jump
      ensures Did(r, ip', p', StepBranch(m, ip, old(Abs(p))))
    {
      hide ReadU32, Top;
      var n := ReadU32(m.code, ip + 1);
      if n.PastEnd? { return Failed, ip, p; }
      if m.code[ip] == OP_BR {
        jump := JumpFor(n.value);
        return Natural, n.next, p;
      }
      if p < 4 { return Failed, ip, p; }
      var a;
      a, p' := PopValue(p, W32);
      jump := if a != 0 then JumpFor(n.value) else 0;
      return Natural, n.next, p';
    }

    method ExecIndirect(fuel: nat, ip: nat, p: nat) returns (r: Ended, ip': nat, p': nat)
      requires Valid() && p <= |stack| && ip < |m.code| && m.code[ip] == OP_CALL_INDIRECT
      modifies this, memory, globals
      ensures Did(r, ip', p', Step(m, fuel, old(curFrame.fn.info.offsets), ip, old(Abs(p))))
      decreases fuel, 0, 1
    {
      hide ReadU32, Top, Machine.CallFunction;
      var t := ReadU32(m.code, ip + 1);
      if t.PastEnd? || p < 4 { return Failed, ip, p; }
      var e;
      e, p' := PopValue(p, W32);
      if e >= |m.table| || m.table[e] == NO_FUNC { return Failed, ip, p; }
      sp := p';
      r := CallFunction(m.table[e], fuel);
      return r, t.next + 1, sp;
    }

    /** A construct's descriptor and type record, all of them live. */
    method MakeBlock(bt: byte, begin: nat, size: nat) returns (block: Function, record: TypeRecord)
      modifies `live
      ensures fresh(block) && fresh(record) && (record.types != null ==> fresh(record.types))
      ensures block.info == FnInfo(false, [], [], begin, size, curFrame.fn.info.offsets)
      ensures live == old(live) + Parts(block, record)
    {
      record := new TypeRecord(bt);
      Malloc(record);
      if record.types != null { Malloc(record.types); }
      block := new Function(FnInfo(false, [], [], begin, size, curFrame.fn.info.offsets));
      Malloc(block);
    }

    static ghost function Parts(block: Function, record: TypeRecord): set<object>
    {
      {block, record} + if record.types == null then {} else {record.types}
    }

    method FreeBlock(block: Function, record: TypeRecord)
      requires Parts(block, record) <= live && (block as object) != record && (record.types as object?) != block
        && (record.types as object?) != record
      modifies `live
      ensures live == old(live) - Parts(block, record)
    {
      if record.types != null { Free(record.types); }
      Free(record);
      Free(block);
    }

    method ExecBlock(fuel: nat, ip: nat, p: nat, loop: bool) returns (r: Ended, ip': nat, p': nat)
      requires Valid() && p <= |stack| && ip < |m.code| && m.code[ip] == BlockOp(loop)
      modifies this, memory, globals, localVars
      ensures Did(r, ip', p', Step(m, fuel, old(curFrame.fn.info.offsets), ip, old(Abs(p))))
      decreases fuel, |m.code| - ip, 1
    {
      hide Scan, Machine.EnterFrame;
      if ip + 1 >= |m.code| { return Failed, ip, p; }
      var stop := ReadBlock(m.code, ip + 2);
      if stop.None? { return Failed, ip, p; }
      var block, record := MakeBlock(m.code[ip + 1], ip + 2, stop.value - (ip + 2));
      sp := p;
      r, ip' := EnterFrame(block, loop, fuel);
      if r == Failed || r == Starved { return r, ip, p; }
      FreeBlock(block, record);
      return Natural, ip', sp;
    }

    method ExecIf(fuel: nat, ip: nat, p: nat) returns (r: Ended, ip': nat, p': nat)
      requires Valid() && p <= |stack| && ip < |m.code|
      modifies this, memory, globals, localVars
      ensures Did(r, ip', p', StepIf(m, fuel, old(curFrame.fn.info.offsets), ip, old(Abs(p))))
      decreases fuel, |m.code| - ip, 1
    {
      hide Scan, Machine.EnterFrame, Top;
      if ip + 1 >= |m.code| || p < 4 { return Failed, ip, p; }
      var mid := ReadBlock(m.code, ip + 2);
      if mid.None? { return Failed, ip, p; }
      var stop := ReadBlock(m.code, mid.value);
      if stop.None? { return Failed, ip, p; }
      sp := p;
      var cond, _ := PopValue(p, W32);
      var begin, end := if cond != 0 then ip + 2 else mid.value, if cond != 0 then mid.value else stop.value;
      var block, record := MakeBlock(m.code[ip + 1], begin, end - begin);
      r, ip' := EnterFrame(block, false, fuel);
      if r == Failed || r == Starved { return r, ip, p; }
      FreeBlock(block, record);
      return Natural, stop.value, sp;
    }

    /** Frame after frame of a loop, given how the last one ended. */
    ghost function Again(fuel: nat, info: FnInfo, loop: bool, base: nat, r: Res): Res
      reads this
    {
      match r
      case End(natural, s) =>
        if !natural && s.jump == 0 && loop then
          if |s.stack| < base then Fault
          else if fuel == 0 then OutOfFuel
          else Machine.EnterFrame(m, fuel - 1, info.offsets, info.begin, info.begin + info.size, true, s.(stack := s.stack[..base]))
        else End(natural, s)
      case other => other
    }

    /** enter_frame's runs of the current frame: one, or one for each round of a loop. */
    method RunFrame(loop: bool, fuel: nat) returns (r: Ended)
      requires Valid() && curFrame.sp <= |stack|
      modifies this, memory, globals, localVars
      ensures Ran(r, Machine.EnterFrame(m, fuel, old(curFrame.fn.info.offsets), old(curFrame.fn.info.begin),
                                        old(curFrame.fn.info.begin + curFrame.fn.info.size), loop, old(Abs(curFrame.sp))))
      decreases fuel, |m.code| - curFrame.fn.info.begin, 4
    {
      hide Exec;
      var info, base := curFrame.fn.info, curFrame.sp;
      ghost var spec := Machine.EnterFrame(m, fuel, info.offsets, info.begin, info.begin + info.size, loop, Abs(base));
      r := ExecInstructions(fuel);
      var left: nat := fuel;
      while r == Jumped && jump == 0 && loop
        invariant left <= fuel
        invariant r == Natural || r == Jumped ==>
          Valid() && Kept() && sp <= |stack| && spec == Again(left, info, loop, base, ResultOf(r, Abs(sp)))
        invariant r == Failed ==> spec == Fault
        invariant r == Starved ==> spec == OutOfFuel
        decreases left
      {
        if sp < base { return Failed; }
        if left == 0 { return Starved; }
        left := left - 1;
        assert stack[..sp][..base] == stack[..base];
        r := ExecInstructions(left);
      }
    }

    /** Leaving a construct's frame. */
    method PopFrame(ghost below: seq<Frame>)
      requires 0 < index < |frames| && |below| == index && frames[..index] == below && curFrame in live
      modifies `live, `index, `curFrame
      ensures index == old(index) - 1 && frames[..index + 1] == below && curFrame == below[index]
      ensures live == old(live) - {old(curFrame)}
    {
      ghost var frame := curFrame;
      index := index - 1;
      assert frames[index] == frames[..index + 1][index];
      curFrame := frames[index];
      Free(frame);
    }

    method EnterFrame(block: Function, loop: bool, fuel: nat) returns (r: Ended, ip: nat)
      requires Valid() && sp <= |stack|
      modifies this, memory, globals, localVars
      ensures Ran(r, Machine.EnterFrame(m, fuel, block.info.offsets, block.info.begin, block.info.begin + block.info.size, loop, old(Abs(sp))))
      ensures ip == block.info.begin + block.info.size
      decreases fuel, |m.code| - block.info.begin, 5
    {
      hide Machine.EnterFrame;
      var info := block.info;
      ip := info.begin + info.size;
      ghost var below := frames[..index + 1];
      assert below[index] == curFrame;
      var frame := new Frame(sp, block, loop, localVars, curFrame.prev);
      Malloc(frame);
      PushFrame(frame);
      assert frames[..index] == below;
      r := RunFrame(loop, fuel);
      if r == Failed || r == Starved { return; }
      Shorter(frames, index, frame, below);
      PopFrame(below);
      assert live == old(live);
      assert Valid() && Kept();
    }

    /** A frame for a call: the n argument bytes on the stack in its first slots, the rest of its locals zero. */
    method PushCall(fn: Function, n: nat, total: nat)
      requires Valid() && n <= sp <= |stack| && n <= total
      modifies `live, `frames, `index, `curFrame, `localVars
      ensures Valid() && fresh(curFrame) && fresh(localVars)
      ensures curFrame.sp == sp && curFrame.fn == fn && curFrame.prev == old(curFrame)
      ensures index == old(index) + 1 < |frames| && frames[..index] == old(frames[..index + 1])
      ensures live == old(live) + {curFrame, localVars}
      ensures localVars[..] == stack[sp - n..sp] + Zeros(total - n)
    {
      var locals := new byte[total](_ => 0);
      Malloc(locals);
      var frame := new Frame(sp, fn, false, locals, curFrame);
      Malloc(frame);
      localVars := locals;
      Copy(localVars, 0, stack[sp - n..sp]);
      PushFrame(frame);
    }

    /** Leaving it: the caller's frame and locals are current again. */
    method PopCall(frame: Frame)
      requires Valid() && frame == curFrame && frame.prev != null && 0 < index && frames[index - 1] == frame.prev
      requires (frame as object) != frame.locals
      modifies `live, `index, `curFrame, `localVars
      ensures index == old(index) - 1 && curFrame == frame.prev && localVars == curFrame.locals
      ensures live == old(live) - {frame, frame.locals}
    {
      curFrame := frame.prev;
      index := index - 1;
      Free(localVars);
      Free(frame);
      localVars := frames[index].locals;
    }

    method CallFunction(f: nat, fuel: nat) returns (r: Ended)
      requires Valid() && sp <= |stack|
      modifies this, memory, globals
      ensures Ran(r, Machine.CallFunction(m, fuel, f, old(Abs(sp)))) && r != Jumped
      decreases fuel, 0, 0
    {
      hide Exec, TypesSize, Zeros;
      if f >= |m.fns| || m.fns[f].isImport || |m.fns[f].offsets| == 0 { return Failed; }
      var fn := functions[f];
      var n := ParamsSize(fn.info.params);
      var total := Total(fn.info);
      if sp < n || total < n { return Failed; }
      if fuel == 0 { return Starved; }
      assert stack[..sp][sp - n..] == stack[sp - n..sp];
      ghost var below := frames[..index + 1];
      assert below[index] == curFrame;
      PushCall(fn, n, total);
      var frame := curFrame;
      assert frames[..index + 1] == below + [frame];
      r := ExecInstructions(fuel - 1);
      if r == Failed || r == Starved { return; }
      if jump < 0 { jump := 0; }
      Shorter(frames, index, frame, below);
      assert frames[index - 1] == frames[..index][index - 1];
      PopCall(frame);
      assert frames[..index + 1] == below;
      assert localVars == old(localVars) && localVars[..] == old(localVars[..]);
      assert live == old(live);
      assert Valid() && Kept();
      r := Natural;
    }

    /** The loop that moves the stack pointer down over the arguments. */
    method ParamsSize(params: seq<byte>) returns (n: nat)
      ensures n == TypesSize(params)
    {
      n := 0;
      var i := |params|;
      while i > 0
        invariant 0 <= i <= |params| && n == TypesSize(params[i..])
      {
        i := i - 1;
        assert params[i..][1..] == params[i + 1..];
        n := n + TypeSize(params[i]);
      }
      assert params[0..] == params;
    }

    /**
     call_main, from the environment and the frame the constructor made. When it returns a value, everything
     the run allocated has been freed and the control stack is back at its first entry.
     */
    method CallMain(fuel: nat, start: Option<nat>, main: nat) returns (r: Final)
      requires Valid() && index == 0 && sp == 0 && jump == 0 && live == {curFrame, localVars}
        && (curFrame as object) != localVars
      requires main < |m.fns| && curFrame.fn == functions[main] && curFrame.sp == 0
      modifies this, memory, globals, localVars
      ensures r == FinalOf(m.fns[main].results, MainRun(m, fuel, start, main, old(Abs(0))))
      ensures r.Returned? ==> index == 0 && live == {}
    {
      hide Exec, Machine.CallFunction, Top;
      assert stack[..0] == [];
      var info, e := curFrame.fn.info, Natural;
      if start.Some? {
        e := CallFunction(start.value, fuel);
        if e == Failed { return Crashed; }
        if e == Starved { return Unfinished; }
        assert stack[..0] == [];
      }
      e := ExecInstructions(fuel);
      if e == Failed { return Crashed; }
      if e == Starved { return Unfinished; }
      if info.results == [] || !IsValueType(info.results[0]) { return Crashed; }
      var w := WidthOf(info.results[0]);
      if sp < Size(w) { return Crashed; }
      var n, _ := PopValue(sp, w);
      Free(localVars);
      Free(curFrame);
      return Returned(info.results[0], n);
    }
  }
}
