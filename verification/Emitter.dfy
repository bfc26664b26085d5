/** emit_seq, emit_folded and emit_expr as they run: on a byte buffer and a label stack updated in place. */
module Emitter {
  import opened Bytes
  import opened Leb
  import opened Isa
  import opened Sexpr
  import opened Numerals
  import A = Assembler

  /** The loop of resolve_name. */
  method ResolveName(names: seq<Option<string>>, ref: string) returns (r: Option<nat>)
    ensures r == A.ResolveName(names, ref)
  {
    if ref == [] { return None; }
    if ref[0] == '$' {
      for i := 0 to |names|
        invariant A.FindName(names, ref[1..])
               == match A.FindName(names[i..], ref[1..]) case Some(k) => Some(i + k) case None => None
      {
        if names[i] == Some(ref[1..]) { return Some(i); }
        assert names[i..][1..] == names[i + 1..];
      }
      return None;
    }
    var v := IndexText(ref);
    return if v.Some? && Signed32(Wrap32(v.value)) >= 0 then Some(Signed32(Wrap32(v.value))) else None;
  }

  /** Moving what was written from the rest into the part done. */
  lemma ThenThen(a: seq<byte>, b: seq<byte>, r: A.SeqRes)
    ensures A.Then(a, A.Then(b, r)) == A.Then(a + b, r)
  {
  }

  lemma NoneDone(r: Option<seq<byte>>)
    ensures A.Join(Some([]), r) == r
  {
    if r.Some? { assert [] + r.value == r.value; }
  }

  lemma NoArgs(a: A.Names, labels: A.Labels, k: seq<Sx>, lo: nat)
    requires lo <= |k|
    ensures A.EmitArgs(a, labels, k, lo, lo) == Some([])
  {
  }

  lemma Assoc(a: seq<byte>, b: seq<byte>, c: seq<byte>)
    ensures a + b + c == a + (b + c)
  {
  }

  lemma Frame(before: seq<byte>, op: byte, bt: byte, body: seq<byte>)
    ensures before + [op] + [bt] + body + [OP_END] == before + ([op, bt] + (body + [OP_END]))
  {
  }

  lemma Body(before: seq<byte>, op: byte, body: seq<byte>)
    ensures before + [op] + [TYPE_VOID] + body + [OP_END] == before + ([op, TYPE_VOID] + body + [OP_END])
  {
  }

  lemma Arms(before: seq<byte>, thn: seq<byte>, els: seq<byte>)
    ensures before + [OP_IF] + [TYPE_VOID] + thn + [OP_ELSE] + els + [OP_END]
         == before + ([OP_IF, TYPE_VOID] + thn + [OP_ELSE] + els + [OP_END])
  {
  }

  lemma IfFrame(before: seq<byte>, cond: seq<byte>, bt: byte, arms: seq<byte>)
    ensures before + cond + [OP_IF] + [bt] + arms == before + (cond + ([OP_IF, bt] + arms))
  {
  }

  lemma JoinJoin(a: seq<byte>, b: seq<byte>, r: Option<seq<byte>>)
    ensures A.Join(Some(a), A.Join(Some(b), r)) == A.Join(Some(a + b), r)
  {
    if r.Some? { assert a + (b + r.value) == a + b + r.value; }
  }

  class Emitter {
    const names: A.Names
    const code: ByteBuf
    var labels: A.Labels

    constructor (names: A.Names)
      ensures this.names == names && fresh(code) && code.data == [] && labels == [None]
    {
      this.names := names;
      code := new ByteBuf();
      labels := [None];
    }

    method PushName(name: Option<string>)
      modifies this
      ensures labels == old(labels) + [name]
    {
      labels := labels + [name];
    }

    method Pop()
      modifies this
      ensures old(labels) != [] ==> labels == old(labels)[..|old(labels)| - 1]
    {
      if labels != [] { labels := labels[..|labels| - 1]; }
    }

    /** resolve_label_depth: from the innermost label outwards. */
    method ResolveLabel(ref: string) returns (r: Option<nat>)
      ensures r == A.ResolveLabel(labels, ref)
    {
      if ref != [] && ref[0] == '$' {
        var i := |labels|;
        assert labels[..i] == labels;
        while i > 0
          invariant 0 <= i <= |labels|
          invariant A.FindLabel(labels, ref[1..])
                 == match A.FindLabel(labels[..i], ref[1..]) case Some(d) => Some(|labels| - i + d) case None => None
        {
          assert labels[..i][..i - 1] == labels[..i - 1];
          if labels[i - 1] == Some(ref[1..]) { return Some(|labels| - i); }
          i := i - 1;
        }
        return None;
      }
      var v := IndexText(ref);
      return if v.Some? then Some(Wrap32(v.value)) else None;
    }

    method EmitConst(m: string, text: string) returns (ok: bool)
      modifies code
      ensures var o := A.EmitConst(m, text); ok == o.Some? && (ok ==> code.data == old(code.data) + o.value)
    {
      var v := ParseIntLit(text);
      if v.None? { return false; }
      if m == "i32.const" {
        code.Put(0x41);
        code.PutLebS(Signed32(Wrap32(v.value)));
        return true;
      }
      if m == "i64.const" {
        code.Put(0x42);
        code.PutLebS(v.value);
        return true;
      }
      return false;
    }

    /** parse_memarg. */
    method ParseMemArg(e: seq<Sx>, n: nat, i: nat) returns (arg: A.MemArg)
      requires n <= |e|
      ensures arg == A.ReadMemArg(e, n, i, 0)
    {
      var offset: u32, j := 0, i;
      while j < n
        invariant A.ReadMemArg(e, n, i, 0) == A.ReadMemArg(e, n, j, offset)
        decreases n - j
      {
        if e[j].Atom? && A.HasPrefix(e[j].text, "offset=") {
          var v := ParseIntLit(e[j].text[7..]);
          if v.Some? { offset := Wrap32(v.value); }
        } else if !(e[j].Atom? && A.HasPrefix(e[j].text, "align=")) {
          break;
        }
        j := j + 1;
      }
      return A.MemArg(offset, j);
    }

    /** An opcode and the index its name or number resolves to. */
    method PutIndexed(m: string, ref: string) returns (ok: bool)
      modifies code
      ensures var o := A.EmitIndexed(names, labels, m, ref); ok == o.Some? && (ok ==> code.data == old(code.data) + o.value)
    {
      var i: Option<nat>;
      if A.IsBranch(m) { i := ResolveLabel(ref); }
      else if m == "call" { i := ResolveName(names.funcs, ref); }
      else if A.IsLocal(m) { i := ResolveName(names.locals, ref); }
      else { i := ResolveName(names.globals, ref); }
      if i.None? { return false; }
      code.Put(if m == "call" && !A.IsBranch(m) then OP_CALL else A.OpcodeOr(m));
      code.PutLebU32(i.value);
      return true;
    }

    method PutIndirect(t: Option<nat>) returns (ok: bool)
      modifies code
      ensures var o := A.IndirectBytes(t); ok == o.Some? && (ok ==> code.data == old(code.data) + o.value)
    {
      if t.None? { return false; }
      code.Put(OP_CALL_INDIRECT);
      code.PutLebU32(t.value);
      code.Put(0x00);
      return true;
    }

    // ----- folded instructions -----

    /** emit_folded on a list whose head is not a construct: the operands, then the instruction. */
    ghost predicate Plain(ok: bool, before: seq<byte>, ls: A.Labels, k: seq<Sx>, plan: Option<A.Plan>)
      reads this, code
      requires plan.Some? ==> plan.value.hi <= |k|
    {
      var o := Planned(names, ls, k, plan);
      ok == o.Some? && (ok ==> code.data == before + o.value && labels == ls)
    }

    method EmitFolded(x: Sx) returns (ok: bool)
      modifies this, code
      ensures var o := A.EmitFolded(names, old(labels), x);
        ok == o.Some? && (ok ==> code.data == old(code.data) + o.value && labels == old(labels))
      decreases x, 1
    {
      var m := A.HeadText(x);
      if m.None? { return false; }
      if A.IsBlock(m.value) {
        ok := EmitBlock(m.value, x.kids);
      } else if m.value == "if" {
        ok := EmitIf(x.kids);
      } else {
        ok := EmitPlain(m.value, x.kids);
      }
    }

    method EmitExpr(x: Sx) returns (ok: bool)
      modifies this, code
      ensures var o := A.EmitExpr(names, old(labels), x);
        ok == o.Some? && (ok ==> code.data == old(code.data) + o.value && labels == old(labels))
      decreases x, 2
    {
      if x.Atom? {
        var op := A.LookupOpcode(x.text);
        if op.None? { return false; }
        code.Put(op.value);
        return true;
      }
      ok := EmitFolded(x);
    }

    /** The operands k[lo..hi], in order. */
    method EmitArgs(k: seq<Sx>, lo: nat, hi: nat) returns (ok: bool)
      requires hi <= |k|
      modifies this, code
      ensures var o := A.EmitArgs(names, old(labels), k, lo, hi);
        ok == o.Some? && (ok ==> code.data == old(code.data) + o.value && labels == old(labels))
      decreases k, 0, hi - lo
    {
      hide A.EmitExpr;
      ghost var done: seq<byte> := [];
      var j := lo;
      NoneDone(A.EmitArgs(names, labels, k, lo, hi));
      while j < hi
        invariant lo <= j && (j <= hi || j == lo) && labels == old(labels) && code.data == old(code.data) + done
        invariant A.EmitArgs(names, old(labels), k, lo, hi)
          == A.Join(Some(done), A.EmitArgs(names, old(labels), k, j, hi))
        decreases hi - j
      {
        ghost var o := A.EmitExpr(names, old(labels), k[j]);
        ok := EmitExpr(k[j]);
        if !ok { return false; }
        JoinJoin(done, o.value, A.EmitArgs(names, old(labels), k, j + 1, hi));
        done := done + o.value;
        j := j + 1;
      }
      return true;
    }

    /** block and loop. */
    method EmitBlock(m: string, k: seq<Sx>) returns (ok: bool)
      requires |k| >= 1
      modifies this, code
      ensures var o := A.EmitBlock(names, old(labels), m, k);
        ok == o.Some? && (ok ==> code.data == old(code.data) + o.value && labels == old(labels))
      decreases k, 1
    {
      hide A.ReadHeader, A.EmitSeq, A.BlockOpcode;
      var h := A.ReadHeader(k);
      if h.None? { return false; }
      PushName(h.value.name);
      code.Put(A.BlockOpcode(m));
      code.Put(h.value.bt);
      ghost var body := A.EmitSeq(names, labels, k, |k|, h.value.next).code;
      var status, next := EmitSeq(k, |k|, h.value.next);
      if status != A.ROk { return false; }
      code.Put(OP_END);
      Pop();
      Frame(old(code.data), A.BlockOpcode(m), h.value.bt, body);
      return true;
    }

    method EmitIf(k: seq<Sx>) returns (ok: bool)
      requires |k| >= 1
      modifies this, code
      ensures var o := A.EmitIf(names, old(labels), k);
        ok == o.Some? && (ok ==> code.data == old(code.data) + o.value && labels == old(labels))
      decreases k, 2
    {
      hide A.ReadHeader, A.EmitExpr, A.EmitArms;
      var h := A.ReadHeader(k);
      if h.None? || h.value.next >= |k| { return false; }
      PushName(h.value.name);
      ghost var cond, arms := A.EmitExpr(names, labels, k[h.value.next]), A.EmitArms(names, labels, k, h.value.next + 1);
      ok := EmitExpr(k[h.value.next]);
      if !ok { return false; }
      code.Put(OP_IF);
      code.Put(h.value.bt);
      ok := EmitArms(k, h.value.next + 1);
      if !ok { return false; }
      Pop();
      IfFrame(old(code.data), cond.value, h.value.bt, arms.value);
      return true;
    }

    /** The arms of an if, and its end. */
    method EmitArms(k: seq<Sx>, i: nat) returns (ok: bool)
      requires i <= |k|
      modifies this, code
      ensures var o := A.EmitArms(names, old(labels), k, i);
        ok == o.Some? && (ok ==> code.data == old(code.data) + o.value && labels == old(labels))
      decreases k, 1
    {
      hide A.EmitSeq, A.IsForm;
      var j, status, next := i, A.ROk, 0;
      if i < |k| && A.IsForm(k[i], "then") {
        IsFormList(k[i], "then");
        status, next := EmitSeq(k[i].kids, |k[i].kids|, 1);
        j := i + 1;
      } else {
        while j < |k| && !A.IsForm(k[j], "else")
          invariant i <= j <= |k| && A.FindElse(k, i) == A.FindElse(k, j)
        {
          j := j + 1;
        }
        status, next := EmitSeq(k, j, i);
      }
      if status != A.ROk { return false; }
      ghost var thn := code.data[|old(code.data)|..];
      ok := EmitElse(k, j);
      if !ok { return false; }
      ghost var els := code.data[|old(code.data)| + |thn|..];
      code.Put(OP_END);
      Assoc(old(code.data) + thn, els, [OP_END]);
      Assoc(old(code.data), thn, els + [OP_END]);
    }

    /** The (else ...) form, where there is one. */
    method EmitElse(k: seq<Sx>, j: nat) returns (ok: bool)
      requires j <= |k|
      modifies this, code
      ensures var o := A.EmitElse(names, old(labels), k, j);
        ok == o.Some? && (ok ==> code.data == old(code.data) + o.value && labels == old(labels))
      decreases k, 0
    {
      hide A.EmitSeq, A.IsForm;
      if j < |k| && A.IsForm(k[j], "else") {
        IsFormList(k[j], "else");
        code.Put(OP_ELSE);
        var status, next := EmitSeq(k[j].kids, |k[j].kids|, 1);
        if status != A.ROk { return false; }
        Assoc(old(code.data), [OP_ELSE], A.EmitSeq(names, labels, k[j].kids, |k[j].kids|, 1).code);
      }
      return true;
    }

    method EmitPlain(m: string, k: seq<Sx>) returns (ok: bool)
      requires |k| >= 1
      modifies this, code
      ensures Plain(ok, old(code.data), old(labels), k, A.PlanOf(names, old(labels), m, k))
      decreases k, 2
    {
      hide A.EmitArgs, A.EmitConst, A.PlanIndexed, A.PlanIndirect, A.PlanAccess, A.LookupOpcode;
      if A.IsConst(m) {
        if |k| < 2 || !k[1].Atom? { return false; }
        NoArgs(names, labels, k, 2);
        ok := EmitConst(m, k[1].text);
      } else if A.IsLocal(m) || A.IsGlobal(m) || A.IsBranch(m) || m == "call" {
        ok := EmitIndexed(m, k);
      } else if m == "call_indirect" {
        ok := EmitIndirect(k);
      } else if m == "memory.size" {
        NoArgs(names, labels, k, 1);
        code.Put(0x3F);
        code.Put(0x00);
        ok := true;
      } else if m == "memory.grow" {
        if |k| < 2 { return false; }
        ghost var args := A.EmitArgs(names, labels, k, 1, 2);
        ok := EmitArgs(k, 1, 2);
        code.Put(0x40);
        code.Put(0x00);
        if ok { Assoc(old(code.data), args.value, [0x40, 0x00]); }
      } else if m == "br_table" {
        ok := false;
      } else if m == "select" {
        ghost var args := A.EmitArgs(names, labels, k, 1, if |k| < 4 then |k| else 4);
        ok := EmitArgs(k, 1, if |k| < 4 then |k| else 4);
        code.Put(0x1B);
        if ok { Assoc(old(code.data), args.value, [0x1B]); }
      } else if m == "drop" {
        if |k| < 2 { return false; }
        ghost var args := A.EmitArgs(names, labels, k, 1, 2);
        ok := EmitArgs(k, 1, 2);
        code.Put(0x1A);
        if ok { Assoc(old(code.data), args.value, [0x1A]); }
      } else {
        ok := EmitOther(m, k);
      }
    }

    method EmitIndexed(m: string, k: seq<Sx>) returns (ok: bool)
      requires |k| >= 1
      modifies this, code
      ensures Plain(ok, old(code.data), old(labels), k, A.PlanIndexed(names, old(labels), m, k))
      decreases k, 0
    {
      hide A.EmitArgs, A.EmitIndexed;
      if |k| < 2 || !k[1].Atom? { return false; }
      NoArgs(names, labels, k, 2);
      if m == "call" {
        ok := EmitArgs(k, 2, |k|);
      } else if m == "local.get" || m == "global.get" || m == "br" {
        ok := true;
      } else {
        if |k| < 3 { return false; }
        ok := EmitArgs(k, 2, 3);
      }
      if !ok { return false; }
      ok := PutIndexed(m, k[1].text);
    }

    method EmitIndirect(k: seq<Sx>) returns (ok: bool)
      requires |k| >= 1
      modifies this, code
      ensures Plain(ok, old(code.data), old(labels), k, A.PlanIndirect(names, k))
      decreases k, 0
    {
      var i, t := 1, Some(0);
      if |k| > 1 && A.IsForm(k[1], "type") {
        if |k[1].kids| < 2 || !k[1].kids[1].Atom? { return false; }
        t := ResolveName(names.types, k[1].kids[1].text);
        if t.None? { return false; }
        i := 2;
      }
      if i >= |k| { return false; }
      ok := EmitArgs(k, i, |k|);
      if !ok { return false; }
      ok := PutIndirect(t);
    }

    /** Loads, stores and every instruction without immediates. */
    method EmitOther(m: string, k: seq<Sx>) returns (ok: bool)
      requires |k| >= 1
      modifies this, code
      ensures Plain(ok, old(code.data), old(labels), k,
        match A.LookupOpcode(m)
        case None => None
        case Some(op) => if 0x28 <= op <= 0x3E then A.PlanAccess(op, k) else A.MakePlan(k, 1, |k|, Some([op])))
      decreases k, 1, 1
    {
      hide A.LookupOpcode, A.EmitArgs, A.PlanAccess;
      var op := A.LookupOpcode(m);
      if op.None? { return false; }
      if 0x28 <= op.value <= 0x3E {
        ok := EmitAccess(op.value, k);
      } else {
        ghost var args := A.EmitArgs(names, labels, k, 1, |k|);
        ok := EmitArgs(k, 1, |k|);
        code.Put(op.value);
        if ok { Assoc(old(code.data), args.value, [op.value]); }
      }
    }

    method EmitAccess(op: byte, k: seq<Sx>) returns (ok: bool)
      requires |k| >= 1
      modifies this, code
      ensures Plain(ok, old(code.data), old(labels), k, A.PlanAccess(op, k))
      decreases k, 1, 0
    {
      hide A.EmitArgs, A.ReadMemArg, LebU;
      var arg := ParseMemArg(k, |k|, 1);
      var hi := arg.next + if op >= 0x36 then 2 else 1;
      if hi > |k| { return false; }
      ghost var args := A.EmitArgs(names, labels, k, arg.next, hi);
      ok := EmitArgs(k, arg.next, hi);
      code.Put(op);
      code.PutLebU32(0);
      code.PutLebU32(arg.offset);
      if ok {
        Assoc(old(code.data) + args.value, [op], LebU(0));
        Assoc(old(code.data) + args.value, [op] + LebU(0), LebU(arg.offset));
        Assoc(old(code.data), args.value, [op] + LebU(0) + LebU(arg.offset));
      }
    }

    // ----- instruction sequences -----

    method EmitSeq(e: seq<Sx>, n: nat, i: nat) returns (status: A.Status, next: nat)
      requires n <= |e|
      modifies this, code
      ensures var r := A.EmitSeq(names, old(labels), e, n, i);
        status == r.status
        && (status != A.RErr ==> next == r.next && code.data == old(code.data) + r.code && labels == old(labels))
      decreases e, 0, n - i, 2
    {
      hide A.EmitOne;
      next := i;
      ghost var done: seq<byte> := [];
      while next < n
        invariant i <= next && (next <= n || next == i) && labels == old(labels) && code.data == old(code.data) + done
        invariant A.EmitSeq(names, old(labels), e, n, i) == A.Then(done, A.EmitSeq(names, old(labels), e, n, next))
        decreases n - next
      {
        if e[next] == Atom("end") { return A.REnd, next + 1; }
        if e[next] == Atom("else") { return A.RElse, next + 1; }
        ghost var o := A.EmitOne(names, old(labels), e, n, next);
        var ok, next' := EmitOne(e, n, next);
        if !ok { return A.RErr, next; }
        ThenThen(done, o.value.code, A.EmitSeq(names, old(labels), e, n, next'));
        done := done + o.value.code;
        next := next';
      }
      return A.ROk, next;
    }

    method EmitOne(e: seq<Sx>, n: nat, i: nat) returns (ok: bool, next: nat)
      requires i < n <= |e|
      modifies this, code
      ensures var o := A.EmitOne(names, old(labels), e, n, i);
        ok == o.Some? && (ok ==> next == o.value.next && code.data == old(code.data) + o.value.code && labels == old(labels))
      decreases e, 0, n - i, 1
    {
      if e[i].List? {
        ok := EmitFolded(e[i]);
        next := i + 1;
      } else if A.IsBlock(e[i].text) || e[i].text == "if" {
        next := i + 1;
        if next < n && A.IsName(e[next]) {
          PushName(Some(e[next].text[1..]));
          next := next + 1;
        } else {
          PushName(None);
        }
        ok, next := EmitFlatConstruct(e, n, next, e[i].text);
        Pop();
      } else {
        ok, next := EmitFlatLeaf(e, n, i);
      }
    }

    /** A flat construct from its body on; its label is on the stack. */
    method EmitFlatConstruct(e: seq<Sx>, n: nat, i: nat, m: string) returns (ok: bool, next: nat)
      requires i <= n <= |e|
      modifies this, code
      ensures var o := A.EmitFlatConstruct(names, old(labels), e, n, i, m);
        ok == o.Some? && (ok ==> next == o.value.next && code.data == old(code.data) + o.value.code && labels == old(labels))
      decreases e, 0, n - i, 3
    {
      hide A.EmitSeq, A.BlockOpcode;
      var op := if m == "if" then OP_IF else A.BlockOpcode(m);
      ghost var before, ls, r := code.data, labels, A.EmitSeq(names, labels, e, n, i);
      code.Put(op);
      code.Put(TYPE_VOID);
      var status;
      status, next := EmitSeq(e, n, i);
      if m == "if" && status == A.RElse {
        code.Put(OP_ELSE);
        ghost var r2 := A.EmitSeq(names, ls, e, n, next);
        status, next := EmitSeq(e, n, next);
        code.Put(OP_END);
        ok := status == A.ROk || status == A.REnd;
        if ok { Arms(before, r.code, r2.code); }
      } else {
        code.Put(OP_END);
        ok := status == A.ROk || status == A.REnd;
        if ok { Body(before, op, r.code); }
      }
    }

    method EmitFlatLeaf(e: seq<Sx>, n: nat, i: nat) returns (ok: bool, next: nat)
      requires i < n <= |e| && e[i].Atom?
      modifies code
      ensures var o := A.EmitFlatLeaf(names, labels, e, n, i);
        ok == o.Some? && (ok ==> next == o.value.next && code.data == old(code.data) + o.value.code)
    {
      hide A.EmitConst, A.EmitIndexed, A.IndirectBytes, A.LookupOpcode, A.ReadMemArg, A.IsForm, LebU;
      var m := e[i].text;
      next := i + 1;
      if A.IsConst(m) {
        if next >= n || !e[next].Atom? { return false, next; }
        ok := EmitConst(m, e[next].text);
        next := next + 1;
      } else if A.IsLocal(m) || A.IsGlobal(m) || A.IsBranch(m) || m == "call" {
        if next >= n || !e[next].Atom? { return false, next; }
        ok := PutIndexed(m, e[next].text);
        next := next + 1;
      } else if m == "memory.size" || m == "memory.grow" {
        code.Put(A.OpcodeOr(m));
        code.Put(0x00);
        ok := true;
      } else if m == "call_indirect" {
        var t := Some(0);
        if next < n && A.IsForm(e[next], "type") {
          IsFormList(e[next], "type");
          var k := e[next].kids;
          if |k| >= 2 && k[1].Atom? { t := ResolveName(names.types, k[1].text); }
          next := next + 1;
        }
        ok := PutIndirect(t);
      } else if m == "br_table" {
        ok := false;
      } else {
        var op := A.LookupOpcode(m);
        if op.None? { return false, next; }
        code.Put(op.value);
        if 0x28 <= op.value <= 0x3E {
          var arg := ParseMemArg(e, n, next);
          code.PutLebU32(0);
          code.PutLebU32(arg.offset);
          next := arg.next;
        }
        ok := true;
      }
    }
  }

  lemma IsFormList(x: Sx, keyword: string)
    requires A.IsForm(x, keyword)
    ensures x.List? && |x.kids| >= 1
  {
  }

  /** What a plan emits. */
  ghost function Planned(a: A.Names, labels: A.Labels, k: seq<Sx>, plan: Option<A.Plan>): Option<seq<byte>>
    requires plan.Some? ==> plan.value.hi <= |k|
  {
    match plan
    case None => None
    case Some(p) => A.Join(A.EmitArgs(a, labels, k, p.lo, p.hi), Some(p.tail))
  }
}
