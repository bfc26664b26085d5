/** read_block: finding the end (or the else) of a construct by scanning its bytes. */
module Blocks {
  import opened Bytes
  import opened Leb
  import opened Isa

  /** The opcodes read_block steps over without an immediate; f64.add to f64.copysign are not among them. */
  predicate NoImmediate(op: byte)
  {
    op <= 0x01 || op == OP_RETURN || op == 0x1A || op == 0x1B || (0x45 <= op <= 0xBF && !(0xA0 <= op <= 0xA6))
  }

  predicate OneLeb(op: byte)
  {
    op == OP_CALL || 0x20 <= op <= 0x24 || 0x3F <= op <= 0x44 || op == OP_BR || op == OP_BR_IF
  }

  predicate TwoLebs(op: byte)
  {
    0x28 <= op <= 0x3E
  }

  /** The position after the instruction at ip and its immediates; end and else are handled by Scan. */
  function SkipOne(code: seq<byte>, ip: nat): (r: Option<nat>)
    requires ip < |code|
    ensures r.Some? ==> ip < r.value
  {
    var op := code[ip];
    if op == OP_BLOCK || op == OP_LOOP || op == OP_IF then Some(ip + 2)
    else if op == OP_BR_TABLE then
      match ReadU32(code, ip + 1)
      case Got(n, next) => Some(next + n + 1)
      case PastEnd => None
    else if op == OP_CALL_INDIRECT then
      match ReadU32(code, ip + 1)
      case Got(_, next) => Some(next + 1)
      case PastEnd => None
    else if OneLeb(op) then
      match ReadU32(code, ip + 1)
      case Got(_, next) => Some(next)
      case PastEnd => None
    else if TwoLebs(op) then
      match ReadU32(code, ip + 1)
      case Got(_, q) =>
        (match ReadU32(code, q)
         case Got(_, next) => Some(next)
         case PastEnd => None)
      case PastEnd => None
    else if NoImmediate(op) then Some(ip + 1)
    else None
  }

  /**
   Where the scan that has read up to ip stops; net is the uint8_t bracket counter. None: the bytes
   ran out or an unknown opcode made the program exit.
   */
  function Scan(code: seq<byte>, ip: nat, net: byte): (r: Option<nat>)
    ensures r.Some? ==> ip < r.value
    decreases |code| - ip
  {
    if ip >= |code| then None
    else if code[ip] == OP_END || code[ip] == OP_ELSE then
      var closed := (net - 1) % 0x100;
      if closed == 0 then Some(ip + 1)
      else Scan(code, ip + 1, if code[ip] == OP_END then closed else net)
    else
      match SkipOne(code, ip)
      case None => None
      case Some(next) =>
        var op := code[ip];
        Scan(code, next, if op == OP_BLOCK || op == OP_LOOP || op == OP_IF then (net + 1) % 0x100 else net)
  }

  /** The loop of read_block; stop is start + offset. */
  method ReadBlock(code: seq<byte>, start: nat) returns (stop: Option<nat>)
    ensures stop == Scan(code, start, 1)
  {
    hide SkipOne;
    var ip := start;
    var net: byte := 1;
    while ip < |code|
      invariant Scan(code, start, 1) == Scan(code, ip, net)
      decreases |code| - ip
    {
      var op := code[ip];
      if op == OP_END {
        ip := ip + 1;
        net := (net - 1) % 0x100;
        if net == 0 { return Some(ip); }
      } else if op == OP_ELSE {
        ip := ip + 1;
        net := (net - 1) % 0x100;
        if net == 0 { return Some(ip); }
        net := (net + 1) % 0x100;
      } else {
        var next := SkipOne(code, ip);
        if next.None? { return None; }
        ip := next.value;
        if op == OP_BLOCK || op == OP_LOOP || op == OP_IF { net := (net + 1) % 0x100; }
      }
    }
    return None;
  }

  // ----- emitted bodies -----

  /** Immediates in range, and no i64 constant that read_block's five-byte reader cannot step over. */
  predicate ScannablePlain(p: Plain)
  {
    Encodable(p) && (p.Const? ==> -0x4_0000_0000 <= p.v < 0x4_0000_0000)
  }

  predicate ScannableSeq(ins: seq<Ins>)
    decreases ins
  {
    ins == [] || (Scannable(ins[0]) && ScannableSeq(ins[1..]))
  }

  predicate Scannable(i: Ins)
    decreases i
  {
    match i
    case L(l) => ScannableLeaf(l)
    case Block(_, _, body) => ScannableSeq(body)
    case If(_, thn, els) => ScannableSeq(thn) && ScannableSeq(els)
  }

  predicate ScannableLeaf(l: Leaf)
  {
    match l
    case P(p) => ScannablePlain(p)
    case Br(n) => n < 0x7FFF_FFFF
    case BrIf(n) => n < 0x7FFF_FFFF
    case Return => true
    case Call(f) => f < 0x8000_0000
    case CallIndirect(t) => t < 0x8000_0000
  }

  /** An opcode that neither opens nor closes a construct. */
  predicate Flat(op: byte)
  {
    op != OP_BLOCK && op != OP_LOOP && op != OP_IF && op != OP_END && op != OP_ELSE
  }

  lemma SkipPlain(code: seq<byte>, at: nat, p: Plain)
    requires ScannablePlain(p) && At(code, at, EncPlain(p))
    ensures at < |code| && Flat(code[at])
    ensures SkipOne(code, at) == Some(at + 1 + |Immediates(p)|)
  {
    AtCons(code, at, Opcode(p), Immediates(p));
    if p.Load? || p.Store? {
      SkipAccess(code, at, p);
    } else if p.Const? {
      SkipSigned(code, at + 1, p.v);
    } else if p.BrTable? {
      SkipTable(code, at, p.targets);
    } else if p.LocalGet? || p.LocalSet? || p.LocalTee? || p.GlobalGet? || p.GlobalSet? || p.MemSize? || p.MemGrow? {
      SkipIndex(code, at, p);
    } else {
      BareOfOpcode(p);
      BareIsSkipped(Opcode(p));
    }
  }

  lemma SkipAccess(code: seq<byte>, at: nat, p: Plain)
    requires Encodable(p) && At(code, at + 1, Immediates(p)) && at < |code| && code[at] == Opcode(p)
    requires p.Load? || p.Store?
    ensures Flat(code[at]) && SkipOne(code, at) == Some(at + 1 + |Immediates(p)|)
  {
    AccessOfOpcode(p);
    MemArgRoundTrip(code, at + 1, p.offset);
    assert |LebU(0)| == 1;
  }

  lemma SkipTable(code: seq<byte>, at: nat, targets: seq<byte>)
    requires 1 <= |targets| < 0x1_0000_0000
    requires at < |code| && code[at] == OP_BR_TABLE && At(code, at + 1, LebU(|targets| - 1) + targets)
    ensures SkipOne(code, at) == Some(at + 1 + |LebU(|targets| - 1)| + |targets|)
  {
    AtConcat(code, at + 1, LebU(|targets| - 1), targets);
    LebU32RoundTrip(code, at + 1, |targets| - 1);
  }

  lemma SkipIndex(code: seq<byte>, at: nat, p: Plain)
    requires Encodable(p) && At(code, at + 1, Immediates(p)) && at < |code| && code[at] == Opcode(p)
    requires p.LocalGet? || p.LocalSet? || p.LocalTee? || p.GlobalGet? || p.GlobalSet? || p.MemSize? || p.MemGrow?
    ensures SkipOne(code, at) == Some(at + 1 + |Immediates(p)|)
  {
    var i := if p.MemSize? || p.MemGrow? then 0 else p.i;
    assert Immediates(p) == LebU(i);
    LebU32RoundTrip(code, at + 1, i);
  }

  lemma BareIsSkipped(b: byte)
    requires Bare(b).Some?
    ensures NoImmediate(b) && !OneLeb(b) && !TwoLebs(b) && Flat(b) && b != OP_BR_TABLE && b != OP_CALL_INDIRECT
  {
  }

  /** A leaf instruction in place is stepped over whole. */
  lemma {:induction false} SkipLeaf(code: seq<byte>, at: nat, l: Leaf)
    requires ScannableLeaf(l) && At(code, at, EncLeaf(l))
    ensures at < |code| && Flat(code[at]) && SkipOne(code, at) == Some(at + |EncLeaf(l)|)
  {
    hide SkipOne, LebU, Immediates, At, ReadU32;
    match l
    case P(p) => SkipPlain(code, at, p);
    case Br(n) => SkipNumbered(code, at, OP_BR, n);
    case BrIf(n) => SkipNumbered(code, at, OP_BR_IF, n);
    case Return => SkipReturn(code, at);
    case Call(f) => SkipNumbered(code, at, OP_CALL, f);
    case CallIndirect(t) => SplitCallIndirect(code, at, t);
  }

  lemma SkipReturn(code: seq<byte>, at: nat)
    requires At(code, at, [OP_RETURN])
    ensures at < |code| && code[at] == OP_RETURN && SkipOne(code, at) == Some(at + 1)
  {
    AtBytes(code, at, [OP_RETURN]);
  }

  lemma SplitCallIndirect(code: seq<byte>, at: nat, t: u32)
    requires At(code, at, [OP_CALL_INDIRECT] + LebU(t) + [0x00])
    ensures code[at] == OP_CALL_INDIRECT && ReadU32(code, at + 1) == Got(t, at + 1 + |LebU(t)|)
    ensures at + 1 + |LebU(t)| < |code|
    ensures SkipOne(code, at) == Some(at + 2 + |LebU(t)|)
  {
    AtConcat(code, at, [OP_CALL_INDIRECT] + LebU(t), [0x00]);
    AtCons(code, at, OP_CALL_INDIRECT, LebU(t));
    LebU32RoundTrip(code, at + 1, t);
  }

  lemma SkipNumbered(code: seq<byte>, at: nat, op: byte, n: u32)
    requires OneLeb(op) && At(code, at, [op] + LebU(n))
    ensures code[at] == op && ReadU32(code, at + 1) == Got(n, at + 1 + |LebU(n)|)
    ensures SkipOne(code, at) == Some(at + 1 + |LebU(n)|)
  {
    AtCons(code, at, op, LebU(n));
    LebU32RoundTrip(code, at + 1, n);
  }

  lemma NetWraps()
    ensures Net(0) == 1 && Net(256) == 1
  {
  }

  /** The bracket counter after net more openings on top of one. */
  function Net(open: nat): byte { (open + 1) % 0x100 }

  /**
   Scanning over emitted code: with open constructs already open (0 for the body's own), the scan
   passes over the code and keeps its count, provided the count never wraps round to zero inside.
   */
  lemma {:induction false} ScanSeq(code: seq<byte>, at: nat, ins: seq<Ins>, open: nat)
    requires ScannableSeq(ins) && SitsSeq(code, at, ins) && open + DepthSeq(ins) <= 255
    ensures Scan(code, at, Net(open)) == Scan(code, at + LenSeq(ins), Net(open))
    decreases ins
  {
    hide Scan, At, EncLeaf, ScannableLeaf, Net;
    if ins != [] {
      ScanOne(code, at, ins[0], open);
      ScanSeq(code, at + Len(ins[0]), ins[1..], open);
    }
  }

  lemma {:induction false} ScanOne(code: seq<byte>, at: nat, i: Ins, open: nat)
    requires Scannable(i) && Sits(code, at, i) && open + Depth(i) <= 255
    ensures Scan(code, at, Net(open)) == Scan(code, at + Len(i), Net(open))
    decreases i
  {
    hide Scan, At, EncLeaf, ScannableLeaf, Net;
    match i
    case L(l) => PassLeaf(code, at, l, open);
    case Block(_, _, body) =>
      OpenNested(code, at, open);
      ScanSeq(code, at + 2, body, open + 1);
      CloseNested(code, at + 2 + LenSeq(body), open);
    case If(bt, thn, els) =>
      OpenNested(code, at, open);
      ScanSeq(code, at + 2, thn, open + 1);
      PassElse(code, at + 2 + LenSeq(thn), open);
      ScanSeq(code, at + 3 + LenSeq(thn), els, open + 1);
      CloseNested(code, at + 3 + LenSeq(thn) + LenSeq(els), open);
  }

  lemma PassLeaf(code: seq<byte>, at: nat, l: Leaf, open: nat)
    requires ScannableLeaf(l) && At(code, at, EncLeaf(l))
    ensures Scan(code, at, Net(open)) == Scan(code, at + |EncLeaf(l)|, Net(open))
  {
    hide At, EncLeaf, ScannableLeaf, SkipOne, Net;
    SkipLeaf(code, at, l);
  }

  lemma OpenNested(code: seq<byte>, at: nat, open: nat)
    requires at < |code| && (code[at] == OP_BLOCK || code[at] == OP_LOOP || code[at] == OP_IF)
    ensures Scan(code, at, Net(open)) == Scan(code, at + 2, Net(open + 1))
  {
  }

  lemma CloseNested(code: seq<byte>, at: nat, open: nat)
    requires at < |code| && code[at] == OP_END && open + 1 <= 255
    ensures Scan(code, at, Net(open + 1)) == Scan(code, at + 1, Net(open))
  {
  }

  lemma PassElse(code: seq<byte>, at: nat, open: nat)
    requires at < |code| && code[at] == OP_ELSE && open + 1 <= 255
    ensures Scan(code, at, Net(open + 1)) == Scan(code, at + 1, Net(open + 1))
  {
  }

  /** At a count of one, and so also at 257, an end or an else stops the scan. */
  lemma CloseOutermost(code: seq<byte>, at: nat, open: nat)
    requires at < |code| && (code[at] == OP_END || code[at] == OP_ELSE) && (open == 0 || open == 256)
    ensures Scan(code, at, Net(open)) == Some(at + 1)
  {
  }

  /**
   Bracket matching: on an emitted body nested at most 255 deep and closed by end or by else,
   read_block stops right after that byte, whatever bytes its immediates hold.
   */
  lemma ReadBlockFindsEnd(code: seq<byte>, at: nat, body: seq<Ins>)
    requires ScannableSeq(body) && DepthSeq(body) <= 255 && SitsSeq(code, at, body)
    requires at + LenSeq(body) < |code|
    requires code[at + LenSeq(body)] == OP_END || code[at + LenSeq(body)] == OP_ELSE
    ensures Scan(code, at, 1) == Some(at + LenSeq(body) + 1)
  {
    hide Scan, At, EncLeaf, ScannableLeaf, Net;
    NetWraps();
    ScanSeq(code, at, body, 0);
    CloseOutermost(code, at + LenSeq(body), 0);
  }

  // ----- beyond 255 -----

  /** Some construct opens while 255 others are open: the scan stops at or before that one's end. */
  lemma {:induction false} ScanTooDeepSeq(code: seq<byte>, at: nat, ins: seq<Ins>, open: nat)
    requires ScannableSeq(ins) && SitsSeq(code, at, ins) && open <= 255 < open + DepthSeq(ins)
    ensures Scan(code, at, Net(open)).Some?
    ensures Scan(code, at, Net(open)).value <= at + LenSeq(ins)
    decreases ins, 0
  {
    hide Scan, At, EncLeaf, ScannableLeaf, Net;
    if open + Depth(ins[0]) > 255 {
      ScanTooDeepOne(code, at, ins[0], open);
    } else {
      ScanOne(code, at, ins[0], open);
      ScanTooDeepSeq(code, at + Len(ins[0]), ins[1..], open);
    }
  }

  lemma {:induction false} ScanTooDeepOne(code: seq<byte>, at: nat, i: Ins, open: nat)
    requires Scannable(i) && Sits(code, at, i) && open <= 255 < open + Depth(i)
    ensures Scan(code, at, Net(open)).Some?
    ensures Scan(code, at, Net(open)).value <= at + Len(i)
    decreases i, 0
  {
    hide Scan, At, EncLeaf, ScannableLeaf, Net;
    OpenNested(code, at, open);
    match i
    case Block(_, _, body) => ScanTooDeepBody(code, at + 2, body, open + 1);
    case If(bt, thn, els) =>
      if open == 255 || open + 1 + DepthSeq(thn) > 255 {
        ScanTooDeepBody(code, at + 2, thn, open + 1);
      } else {
        ScanSeq(code, at + 2, thn, open + 1);
        PassElse(code, at + 2 + LenSeq(thn), open);
        assert DepthSeq(els) + open + 1 > 255;
        ScanTooDeepSeq(code, at + 3 + LenSeq(thn), els, open + 1);
      }
  }

  /** Inside the 256th construct the counter is 1 again, as if it were the outermost. */
  lemma {:induction false} ScanTooDeepBody(code: seq<byte>, at: nat, body: seq<Ins>, open: nat)
    requires ScannableSeq(body) && SitsSeq(code, at, body) && at + LenSeq(body) < |code|
    requires code[at + LenSeq(body)] == OP_END || code[at + LenSeq(body)] == OP_ELSE
    requires open <= 256 && (open == 256 || open + DepthSeq(body) > 255)
    ensures Scan(code, at, Net(open)).Some?
    ensures Scan(code, at, Net(open)).value <= at + LenSeq(body) + 1
    decreases body, 1
  {
    hide Scan, At, EncLeaf, ScannableLeaf, Net;
    if open < 256 {
      ScanTooDeepSeq(code, at, body, open);
    } else if DepthSeq(body) <= 255 {
      NetWraps();
      ScanSeq(code, at, body, 0);
      CloseOutermost(code, at + LenSeq(body), 0);
    } else {
      NetWraps();
      ScanTooDeepSeq(code, at, body, 0);
    }
  }

  /** read_block finds the matching end or else exactly when the body nests at most 255 deep. */
  lemma ReadBlockIffShallow(code: seq<byte>, at: nat, body: seq<Ins>, close: byte)
    requires close == OP_END || close == OP_ELSE
    requires ScannableSeq(body) && At(code, at, EncSeq(body) + [close])
    ensures Scan(code, at, 1) == Some(at + |EncSeq(body)| + 1) <==> DepthSeq(body) <= 255
  {
    hide Scan, EncLeaf, ScannableLeaf, Net;
    NetWraps();
    AtConcat(code, at, EncSeq(body), [close]);
    AtBytes(code, at + |EncSeq(body)|, [close]);
    EncSeqSits(code, at, body);
    if DepthSeq(body) <= 255 {
      ReadBlockFindsEnd(code, at, body);
    } else {
      ScanTooDeepSeq(code, at, body, 0);
    }
  }

  // ----- opcodes this assembler does not write -----

  /** Floating-point instructions without immediates are stepped over, but seven of them end the program. */
  lemma SkipFloat(code: seq<byte>, ip: nat)
    requires ip < |code|
    ensures 0x5B <= code[ip] <= 0x66 || 0x8B <= code[ip] <= 0x9F || 0xA8 <= code[ip] <= 0xAB || 0xAE <= code[ip] <= 0xBF
      ==> SkipOne(code, ip) == Some(ip + 1)
    // f64.add to f64.copysign
    ensures 0xA0 <= code[ip] <= 0xA6 ==> SkipOne(code, ip) == None
    // f32.load, f64.load, f32.store, f64.store
    ensures code[ip] == 0x2A || code[ip] == 0x2B || code[ip] == 0x38 || code[ip] == 0x39
      ==> SkipOne(code, ip) == AfterTwo(code, ip + 1)
  {
    hide ReadU32;
  }

  /** The position after two LEB128 numbers. */
  function AfterTwo(code: seq<byte>, p: nat): Option<nat>
  {
    match ReadU32(code, p)
    case PastEnd => None
    case Got(_, q) => match ReadU32(code, q) case Got(_, next) => Some(next) case PastEnd => None
  }

  /**
   A floating-point constant is stepped over as if it were a LEB128 number: an f32.const with its four bytes exactly when
   these look like one, an f64.const with its eight bytes never.
   */
  lemma SkipFloatConst(code: seq<byte>, ip: nat, bs: seq<byte>)
    requires At(code, ip + 1, bs) && ip < |code|
    ensures code[ip] == 0x43 && |bs| == 4 ==> (SkipOne(code, ip) == Some(ip + 5) <==> Terminated(bs))
    ensures code[ip] == 0x44 && |bs| == 8 ==> SkipOne(code, ip) != Some(ip + 9)
  {
    hide LebRaw;
    RawInside(code, ip + 1, 5, false);
    if |bs| == 4 {
      if Terminated(bs) { RawIs(code, ip + 1, bs, 5, false); } else { NotTerminated(code, ip + 1, bs, 5); }
    }
  }

  /** What is read as n bytes is terminated. */
  lemma {:induction false} NotTerminated(code: seq<byte>, p: nat, bs: seq<byte>, k: nat)
    requires At(code, p, bs) && bs != [] && !Terminated(bs)
    ensures var r := LebRaw(code, p, k, false); r.Raw? ==> r.len != |bs|
    decreases k
  {
    if k > 0 {
      assert code[p] == code[p..p + |bs|][0] == bs[0];
      RawInside(code, p + 1, k - 1, false);
      if bs[0] >= 0x80 && |bs| >= 2 {
        assert bs == [bs[0]] + bs[1..];
        AtCons(code, p, bs[0], bs[1..]);
        NotTerminated(code, p + 1, bs[1..], k - 1);
      }
    }
  }

  /** Every other opcode is unknown to the scan. */
  lemma SkipUnknown(code: seq<byte>, ip: nat)
    requires ip < |code|
    ensures 0x05 <= code[ip] <= 0x0B || 0x12 <= code[ip] <= 0x19 || 0x1C <= code[ip] <= 0x1F ==> SkipOne(code, ip) == None
    ensures 0x25 <= code[ip] <= 0x27 || 0xC0 <= code[ip] ==> SkipOne(code, ip) == None
  {
  }
}
