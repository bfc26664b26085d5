/**
 LEB128 as the assembler writes it and as the loader and the interpreter read it
 (section 5.2.2 of the WebAssembly Core Specification 1.0).
 */
module Leb {
  import opened Bytes

  /** The bytes bs lie in code from position p on. */
  ghost predicate At(code: seq<byte>, p: nat, bs: seq<byte>)
  {
    p + |bs| <= |code| && code[p..p + |bs|] == bs
  }

  lemma AtConcat(code: seq<byte>, p: nat, a: seq<byte>, b: seq<byte>)
    ensures At(code, p, a + b) <==> At(code, p, a) && At(code, p + |a|, b)
  {
    if At(code, p, a + b) {
      assert code[p..p + |a|] == (code[p..p + |a + b|])[..|a|];
      assert code[p + |a|..p + |a| + |b|] == (code[p..p + |a + b|])[|a|..];
    }
    if At(code, p, a) && At(code, p + |a|, b) {
      assert code[p..p + |a + b|] == code[p..p + |a|] + code[p + |a|..p + |a| + |b|];
    }
  }

  lemma AtCons(code: seq<byte>, p: nat, b: byte, rest: seq<byte>)
    ensures At(code, p, [b] + rest) <==> p < |code| && code[p] == b && At(code, p + 1, rest)
  {
    AtConcat(code, p, [b], rest);
    if p < |code| { assert code[p..p + 1] == [code[p]]; }
  }

  // ----- encodings -----

  function LebU(v: nat): (r: seq<byte>)
    ensures |r| >= 1
  {
    if v < 0x80 then [v] else [v % 0x80 + 0x80] + LebU(v / 0x80)
  }

  function LebS(v: int): (r: seq<byte>)
    ensures |r| >= 1
    decreases if v < 0 then -v else v
  {
    if -0x40 <= v < 0x40 then [v % 0x80] else [v % 0x80 + 0x80] + LebS(v / 0x80)
  }

  // ----- decodings -----

  datatype Raw = Raw(value: int, len: nat) | TooLong | RawPastEnd

  /** A cursor read: a value and the position after it, or the buffer ended first. */
  datatype Got<+T> = Got(value: T, next: nat) | PastEnd

  /**
   At most k bytes of a LEB128 number, at infinite precision; signed says whether bit 6 of the
   last byte is a sign.
   */
  function LebRaw(code: seq<byte>, p: nat, k: nat, signed: bool): Raw
    decreases k
  {
    if k == 0 then TooLong
    else if p >= |code| then RawPastEnd
    else
      var b: int := code[p];
      if b < 0x80 then Raw(if signed && b >= 0x40 then b - 0x80 else b, 1)
      else
        match LebRaw(code, p + 1, k - 1, signed)
        case Raw(v, l) => Raw(b - 0x80 + 0x80 * v, l + 1)
        case other => other
  }

  function Wrap(v: int, bits: nat): nat { if bits == 32 then Wrap32(v) else Wrap64(v) }

  /** An over-long number reads as 0 and the cursor stays where it was. */
  function FinishRead(p: nat, bits: nat, raw: Raw): Got<nat>
  {
    match raw
    case Raw(v, l) => Got(Wrap(v, bits), p + l)
    case TooLong => Got(0, p)
    case RawPastEnd => PastEnd
  }

  function ReadU32(code: seq<byte>, p: nat): (r: Got<u32>)
    ensures r.Got? ==> r.next <= |code| || r.next == p
  {
    var raw := LebRaw(code, p, 5, false);
    RawInside(code, p, 5, false);
    FinishRead(p, 32, raw)
  }

  /** The bit pattern of read_leb_i32's result (bits = 32) and of read_leb_i64's (bits = 64). */
  function ReadSigned(code: seq<byte>, p: nat, bits: nat): (r: Got<nat>)
  {
    FinishRead(p, bits, LebRaw(code, p, if bits == 32 then 5 else 10, true))
  }

  lemma {:induction false} RawInside(code: seq<byte>, p: nat, k: nat, signed: bool)
    ensures var r := LebRaw(code, p, k, signed);
            r.Raw? ==> 1 <= r.len <= k && p + r.len <= |code|
    decreases k
  {
    if k > 0 && p < |code| && code[p] >= 0x80 {
      RawInside(code, p + 1, k - 1, signed);
    }
  }

  // ----- reading what was written -----

  lemma {:induction false} RawOfLebU(code: seq<byte>, p: nat, v: nat, k: nat)
    requires At(code, p, LebU(v)) && |LebU(v)| <= k
    ensures LebRaw(code, p, k, false) == Raw(v, |LebU(v)|)
    decreases v
  {
    assert code[p] == LebU(v)[0];
    if v >= 0x80 {
      AtCons(code, p, v % 0x80 + 0x80, LebU(v / 0x80));
      RawOfLebU(code, p + 1, v / 0x80, k - 1);
    }
  }

  lemma {:induction false} RawOfLebS(code: seq<byte>, p: nat, v: int, k: nat)
    requires At(code, p, LebS(v)) && |LebS(v)| <= k
    ensures LebRaw(code, p, k, true) == Raw(v, |LebS(v)|)
    decreases if v < 0 then -v else v
  {
    assert code[p] == LebS(v)[0];
    if !(-0x40 <= v < 0x40) {
      AtCons(code, p, v % 0x80 + 0x80, LebS(v / 0x80));
      RawOfLebS(code, p + 1, v / 0x80, k - 1);
    }
  }

  lemma {:induction false} LebULength(v: nat, k: nat)
    requires k >= 1
    ensures |LebU(v)| <= k <==> v < Pow(0x80, k)
    decreases v
  {
    if v >= 0x80 && k > 1 {
      LebULength(v / 0x80, k - 1);
      DivBelow(v, Pow(0x80, k - 1));
    } else {
      PowAtLeastBase(k);
    }
  }

  /** A signed number takes at most k bytes exactly when 7k bits hold it. */
  lemma {:induction false} LebSLength(v: int, k: nat)
    requires k >= 1
    ensures |LebS(v)| <= k <==> -0x40 * Pow(0x80, k - 1) <= v < 0x40 * Pow(0x80, k - 1)
    decreases if v < 0 then -v else v
  {
    PowAtLeastOne(k - 1);
    if !(-0x40 <= v < 0x40) && k > 1 {
      LebSLength(v / 0x80, k - 1);
      DivBelow(v, 0x40 * Pow(0x80, k - 2));
      DivAbove(v, -0x40 * Pow(0x80, k - 2));
    }
  }

  lemma DivBelow(v: int, p: int)
    ensures v / 0x80 < p <==> v < 0x80 * p
  {
  }

  lemma DivAbove(v: int, p: int)
    ensures p <= v / 0x80 <==> 0x80 * p <= v
  {
  }

  lemma {:induction false} PowAtLeastOne(k: nat)
    ensures Pow(0x80, k) >= 1
  {
    if k > 0 { PowAtLeastOne(k - 1); }
  }

  lemma PowAtLeastBase(k: nat)
    requires k >= 1
    ensures Pow(0x80, k) >= 0x80 && (k == 1 ==> Pow(0x80, k) == 0x80)
  {
    PowAtLeastOne(k - 1);
    if k == 1 { assert Pow(0x80, 0) == 1; }
  }

  lemma Pow128()
    ensures Pow(0x80, 0) == 1 && Pow(0x80, 1) == 0x80 && Pow(0x80, 4) == 0x1000_0000
    ensures Pow(0x80, 5) == 0x8_0000_0000
    ensures Pow(0x80, 9) == 0x8000_0000_0000_0000
  {
    assert Pow(0x80, 2) == 0x4000;
    assert Pow(0x80, 3) == 0x20_0000;
    assert Pow(0x80, 6) == 0x400_0000_0000;
    assert Pow(0x80, 7) == 0x2_0000_0000_0000;
    assert Pow(0x80, 8) == 0x100_0000_0000_0000;
  }

  /** Every u32 takes at most 5 bytes and reads back as itself, whatever follows it. */
  lemma LebU32RoundTrip(code: seq<byte>, p: nat, v: u32)
    requires At(code, p, LebU(v))
    ensures |LebU(v)| <= 5
    ensures ReadU32(code, p) == Got(v, p + |LebU(v)|)
  {
    Pow128();
    LebULength(v, 5);
    RawOfLebU(code, p, v, 5);
  }

  /** Every s32 takes at most 5 bytes and reads back as its own 32-bit pattern. */
  lemma LebS32RoundTrip(code: seq<byte>, p: nat, v: int)
    requires -0x8000_0000 <= v < 0x8000_0000
    requires At(code, p, LebS(v))
    ensures |LebS(v)| <= 5
    ensures ReadSigned(code, p, 32) == Got(Wrap32(v), p + |LebS(v)|)
    ensures Signed32(Wrap32(v)) == v
  {
    Pow128();
    LebSLength(v, 5);
    RawOfLebS(code, p, v, 5);
  }

  lemma LebS64RoundTrip(code: seq<byte>, p: nat, v: int)
    requires -0x8000_0000_0000_0000 <= v < 0x8000_0000_0000_0000
    requires At(code, p, LebS(v))
    ensures |LebS(v)| <= 10
    ensures ReadSigned(code, p, 64) == Got(Wrap64(v), p + |LebS(v)|)
    ensures Signed64(Wrap64(v)) == v
  {
    Pow128();
    LebSLength(v, 10);
    RawOfLebS(code, p, v, 10);
  }

  /** Reading a number unsigned or signed stops at the same byte. */
  lemma {:induction false} SameLength(code: seq<byte>, p: nat, k: nat)
    ensures var u, s := LebRaw(code, p, k, false), LebRaw(code, p, k, true);
            (u.Raw? <==> s.Raw?) && (u.Raw? ==> u.len == s.len) && (!u.Raw? ==> u == s)
    decreases k
  {
    if k > 0 && p < |code| && code[p] >= 0x80 {
      SameLength(code, p + 1, k - 1);
    }
  }

  /**
   read_leb_u32 advances over a written signed number exactly when the number fits in five
   bytes; over a longer one it does not advance at all.
   */
  lemma SkipSigned(code: seq<byte>, p: nat, v: int)
    requires At(code, p, LebS(v))
    ensures ReadU32(code, p).Got?
    ensures ReadU32(code, p).next == if -0x4_0000_0000 <= v < 0x4_0000_0000 then p + |LebS(v)| else p
  {
    Pow128();
    LebSLength(v, 5);
    SameLength(code, p, 5);
    if |LebS(v)| <= 5 {
      RawOfLebS(code, p, v, 5);
    } else {
      LongIsTooLong(code, p, v, 5);
    }
  }

  lemma {:induction false} LongIsTooLong(code: seq<byte>, p: nat, v: int, k: nat)
    requires At(code, p, LebS(v)) && |LebS(v)| > k
    ensures LebRaw(code, p, k, true) == TooLong
    decreases k
  {
    if k > 0 {
      assert code[p] == LebS(v)[0];
      AtCons(code, p, v % 0x80 + 0x80, LebS(v / 0x80));
      LongIsTooLong(code, p + 1, v / 0x80, k - 1);
    }
  }

  /**
   The loader reads a data segment's offset unsigned, though it was written signed: it gets the
   offset back exactly when the offset is non-negative as an int32_t or needs all five bytes.
   */
  lemma UnsignedReadOfSigned(code: seq<byte>, p: nat, v: int)
    requires -0x8000_0000 <= v < 0x8000_0000
    requires At(code, p, LebS(v))
    ensures ReadU32(code, p).Got? && ReadU32(code, p).next == p + |LebS(v)|
    ensures ReadU32(code, p).value == Wrap32(v) <==> v >= 0 || v < -0x800_0000
  {
    SkipSigned(code, p, v);
    LebS32RoundTrip(code, p, v);
    UnsignedRaw(code, p, v, 5);
    UnsignedPattern(v, |LebS(v)|);
  }

  lemma UnsignedPattern(v: int, l: nat)
    requires -0x8000_0000 <= v < 0x8000_0000 && l == |LebS(v)| <= 5
    ensures Wrap32(if v >= 0 then v else v + Pow(0x80, l)) == Wrap32(v) <==> v >= 0 || v < -0x800_0000
  {
    SmallPowers(l);
    LebSLength(v, 4);
    if v < 0 && l < 5 {
      LebSLength(v, l);
      assert v + Pow(0x80, l) < 0x1000_0000;
    }
  }

  lemma SmallPowers(l: nat)
    requires 1 <= l <= 5
    ensures Pow(0x80, 3) == 0x20_0000 && Pow(0x80, 4) == 0x1000_0000
    ensures Pow(0x80, l) == if l == 1 then 0x80 else if l == 2 then 0x4000 else if l == 3 then 0x20_0000
                            else if l == 4 then 0x1000_0000 else 0x8_0000_0000
  {
    Pow128();
    assert Pow(0x80, 2) == 0x4000;
    assert Pow(0x80, 3) == 0x20_0000;
  }

  lemma {:induction false} UnsignedRaw(code: seq<byte>, p: nat, v: int, k: nat)
    requires At(code, p, LebS(v)) && |LebS(v)| <= k
    ensures LebRaw(code, p, k, false)
         == Raw(if v >= 0 then v else v + Pow(0x80, |LebS(v)|), |LebS(v)|)
    decreases k
  {
    assert code[p] == LebS(v)[0];
    Pow128();
    if !(-0x40 <= v < 0x40) {
      AtCons(code, p, v % 0x80 + 0x80, LebS(v / 0x80));
      UnsignedRaw(code, p + 1, v / 0x80, k - 1);
    }
  }

  lemma {:induction false} PowMonotone(a: nat, b: nat)
    ensures a <= b ==> Pow(0x80, a) <= Pow(0x80, b)
    decreases b
  {
    if a < b {
      PowMonotone(a, b - 1);
      PowAtLeastOne(b - 1);
    }
  }

  // ----- what the encodings mean -----

  /** The number of groups of seven bits, the lowest first. */
  function Groups(bs: seq<byte>): nat { if bs == [] then 0 else bs[0] % 0x80 + 0x80 * Groups(bs[1..]) }

  /** Every byte but the last has its top bit set. */
  predicate Terminated(bs: seq<byte>)
  {
    |bs| >= 1 && bs[|bs| - 1] < 0x80 && forall i :: 0 <= i < |bs| - 1 ==> bs[i] >= 0x80
  }

  /** The groups, and for a signed number less 128^n if bit 6 of the last of n groups is set. */
  function Meaning(bs: seq<byte>, signed: bool): int
    requires bs != []
  {
    Groups(bs) - if signed && bs[|bs| - 1] % 0x80 >= 0x40 then Pow(0x80, |bs|) else 0
  }

  lemma {:induction false} MeaningStep(bs: seq<byte>, signed: bool)
    requires |bs| >= 2
    ensures Meaning(bs, signed) == bs[0] % 0x80 + 0x80 * Meaning(bs[1..], signed)
  {
  }

  lemma MeaningOne(b: byte, signed: bool)
    requires b < 0x80
    ensures Terminated([b]) && Meaning([b], signed) == if signed && b >= 0x40 then b - 0x80 else b
  {
    assert [b][1..] == [];
    assert Groups([]) == 0;
    Pow128();
  }

  lemma TerminatedStep(b: byte, rest: seq<byte>)
    requires b >= 0x80 && Terminated(rest)
    ensures Terminated([b] + rest) && ([b] + rest)[1..] == rest
  {
  }

  /** Any terminated bytes, written by this assembler or not, are read as that number if there are at most k. */
  lemma {:induction false} RawIs(code: seq<byte>, p: nat, bs: seq<byte>, k: nat, signed: bool)
    requires At(code, p, bs) && Terminated(bs)
    ensures LebRaw(code, p, k, signed) == if |bs| <= k then Raw(Meaning(bs, signed), |bs|) else TooLong
    decreases k
  {
    if k > 0 {
      assert code[p] == code[p..p + |bs|][0] == bs[0];
      if |bs| >= 2 {
        assert bs == [bs[0]] + bs[1..];
        AtCons(code, p, bs[0], bs[1..]);
        MeaningStep(bs, signed);
        RawIs(code, p + 1, bs[1..], k - 1, signed);
      } else {
        assert bs == [bs[0]];
        MeaningOne(bs[0], signed);
      }
    }
  }

  /** What the writers write is terminated and means the number; LebULength and LebSLength say that it is no longer than needed. */
  lemma {:induction false} LebUMeans(v: nat)
    ensures Terminated(LebU(v)) && Meaning(LebU(v), false) == v
    decreases v
  {
    hide Meaning, Terminated;
    if v >= 0x80 {
      LebUMeans(v / 0x80);
      TerminatedStep(v % 0x80 + 0x80, LebU(v / 0x80));
      MeaningStep(LebU(v), false);
    } else {
      MeaningOne(v, false);
    }
  }

  lemma {:induction false} LebSMeans(v: int)
    ensures Terminated(LebS(v)) && Meaning(LebS(v), true) == v
    decreases if v < 0 then -v else v
  {
    hide Meaning, Terminated;
    if !(-0x40 <= v < 0x40) {
      LebSMeans(v / 0x80);
      TerminatedStep(v % 0x80 + 0x80, LebS(v / 0x80));
      MeaningStep(LebS(v), true);
    } else {
      MeaningOne(v % 0x80, true);
    }
  }

  // ----- the loops of the source -----

  /** A growing byte buffer. */
  class ByteBuf {
    var data: seq<byte>

    constructor ()
      ensures data == []
    {
      data := [];
    }

    method Put(v: byte)
      modifies this
      ensures data == old(data) + [v]
    {
      data := data + [v];
    }

    method PutBytes(p: seq<byte>)
      modifies this
      ensures data == old(data) + p
    {
      data := data + p;
    }

    /** bb_put_leb_u32; its loop does not depend on the width. */
    method PutLebU32(v: nat)
      modifies this
      ensures data == old(data) + LebU(v)
    {
      var rest := v;
      var b := rest % 0x80;
      rest := rest / 0x80;
      while rest != 0
        invariant 0 <= rest && 0 <= b < 0x80
        invariant data + LebU(b + 0x80 * rest) == old(data) + LebU(v)
        decreases rest
      {
        assert LebU(b + 0x80 * rest) == [b + 0x80] + LebU(rest);
        data := data + [b + 0x80];
        b := rest % 0x80;
        rest := rest / 0x80;
      }
      data := data + [b];
    }

    /** bb_put_leb_s32 and bb_put_leb_s64; the shift of a signed value is arithmetic. */
    method PutLebS(v: int)
      requires -0x8000_0000_0000_0000 <= v < 0x8000_0000_0000_0000
      modifies this
      ensures data == old(data) + LebS(v)
    {
      var value, more := v, true;
      while more
        invariant more ==> data + LebS(value) == old(data) + LebS(v)
        invariant !more ==> data == old(data) + LebS(v)
        decreases more, if value < 0 then -value else value
      {
        ghost var before := value;
        var b := value % 0x80;
        value := value / 0x80;
        var sign := b >= 0x40;
        var done := (value == 0 && !sign) || (value == -1 && sign);
        assert done <==> -0x40 <= before < 0x40;
        if done { more := false; } else { b := b + 0x80; }
        data := data + [b];
      }
    }
  }

  /** x << n before truncation. */
  function Shl(x: int, n: nat): (r: int)
    ensures x >= 0 ==> r >= 0
  {
    if n == 0 then x else 2 * Shl(x, n - 1)
  }

  /** One group or-ed in; the groups are disjoint, so or-ing is adding. */
  function AddGroup(res: nat, b: byte, shift: nat, bits: nat): nat
  {
    Wrap(res + Shl(b % 0x80, shift), bits)
  }

  /** After the last group: every bit above its sign is set, unless the sign is past the width. */
  function FillSign(res: nat, b: byte, shift: nat, bits: nat, signed: bool): nat
  {
    if signed && b >= 0x40 && shift < bits then Wrap(res - Shl(1, shift), bits) else res
  }

  /**
   read_leb_u32 (max = 5, bits = 32), read_leb_i32 (5, 32, signed) and read_leb_i64 (10, 64,
   signed) share this loop; its accumulator is truncated to the width at every step.
   */
  method ReadLeb(code: seq<byte>, p: nat, max: nat, bits: nat, signed: bool) returns (r: Got<nat>)
    requires bits == 32 || bits == 64
    ensures r == FinishRead(p, bits, LebRaw(code, p, max, signed))
  {
    ExactIsRaw(code, p, max, 0, 0, 0, signed);
    Truncates(code, p, p, max, 0, 0, 0, bits, signed);
    var res, shift: nat := 0, 0;
    for i := 0 to max
      invariant LoopFrom(code, p, p, max, 0, 0, bits, signed)
             == LoopFrom(code, p, p + i, max - i, res, shift, bits, signed)
    {
      if p + i >= |code| { return PastEnd; }
      var b := code[p + i];
      res := AddGroup(res, b, shift, bits);
      shift := shift + 7;
      if b < 0x80 { return Got(FillSign(res, b, shift, bits, signed), p + i + 1); }
    }
    return Got(0, p);
  }

  /** The rest of the loop's run from q with k bytes to go. */
  ghost function LoopFrom(code: seq<byte>, p: nat, q: nat, k: nat, res: nat, shift: nat, bits: nat,
      signed: bool): Got<nat>
    decreases k
  {
    if k == 0 then Got(0, p)
    else if q >= |code| then PastEnd
    else
      var res' := AddGroup(res, code[q], shift, bits);
      if code[q] < 0x80 then Got(FillSign(res', code[q], shift + 7, bits, signed), q + 1)
      else LoopFrom(code, p, q + 1, k - 1, res', shift + 7, bits, signed)
  }

  /** The same loop on unbounded integers; i groups came before. */
  ghost function Exact(code: seq<byte>, q: nat, k: nat, sum: int, shift: nat, i: nat, signed: bool): Raw
    decreases k
  {
    if k == 0 then TooLong
    else if q >= |code| then RawPastEnd
    else
      var sum' := sum + Shl(code[q] % 0x80, shift);
      if code[q] < 0x80 then Raw(if signed && code[q] >= 0x40 then sum' - Shl(1, shift + 7) else sum', i + 1)
      else Exact(code, q + 1, k - 1, sum', shift + 7, i + 1, signed)
  }

  lemma {:induction false} ExactIsRaw(code: seq<byte>, q: nat, k: nat, sum: int, shift: nat, i: nat, signed: bool)
    ensures Exact(code, q, k, sum, shift, i, signed)
         == match LebRaw(code, q, k, signed)
            case Raw(v, l) => Raw(sum + Shl(v, shift), i + l)
            case other => other
    decreases k
  {
    if k > 0 && q < |code| {
      var b: int := code[q];
      if b >= 0x80 {
        ExactIsRaw(code, q + 1, k - 1, sum + Shl(b % 0x80, shift), shift + 7, i + 1, signed);
        var rest := LebRaw(code, q + 1, k - 1, signed);
        if rest.Raw? { ShlGroup(b - 0x80, rest.value, shift); }
      } else {
        assert b % 0x80 == b;
        ShlGroup(b, -1, shift);
        ShlNegOne(shift + 7);
      }
    }
  }

  /** Truncating at every step truncates the exact number. */
  lemma {:induction false} Truncates(code: seq<byte>, p: nat, q: nat, k: nat, sum: int, shift: nat, i: nat, bits: nat,
      signed: bool)
    requires bits == 32 || bits == 64
    requires q == p + i
    ensures LoopFrom(code, p, q, k, Wrap(sum, bits), shift, bits, signed)
         == FinishRead(p, bits, Exact(code, q, k, sum, shift, i, signed))
    decreases k
  {
    if k > 0 && q < |code| {
      var chunk := Shl(code[q] % 0x80, shift);
      WrapAdd(sum, chunk, bits);
      if code[q] >= 0x80 {
        Truncates(code, p, q + 1, k - 1, sum + chunk, shift + 7, i + 1, bits, signed);
      } else {
        FillExtends(sum + chunk, shift + 7, bits);
      }
    }
  }

  lemma WrapAdd(a: int, b: int, bits: nat)
    ensures Wrap(Wrap(a, bits) + b, bits) == Wrap(a + b, bits)
  {
  }

  /** Setting the bits above the sign subtracts 2^shift; past the width it changes nothing. */
  lemma FillExtends(sum: int, shift: nat, bits: nat)
    requires bits == 32 || bits == 64
    ensures shift < bits ==> Wrap(Wrap(sum, bits) - Shl(1, shift), bits) == Wrap(sum - Shl(1, shift), bits)
    ensures shift >= bits ==> Wrap(sum, bits) == Wrap(sum - Shl(1, shift), bits)
  {
    if shift >= bits {
      ShlMultiple(shift, bits);
      WrapMultiple(sum, Shl(1, shift), bits);
    } else {
      WrapAdd(sum, -Shl(1, shift), bits);
    }
  }

  lemma WrapMultiple(a: int, q: int, bits: nat)
    requires Wrap(q, bits) == 0
    ensures Wrap(a - q, bits) == Wrap(a, bits)
  {
    if bits == 32 {
      assert q == 0x1_0000_0000 * (q / 0x1_0000_0000);
    } else {
      assert q == 0x1_0000_0000_0000_0000 * (q / 0x1_0000_0000_0000_0000);
    }
  }

  lemma {:induction false} ShlGroup(d: int, v: int, n: nat)
    ensures Shl(d + 0x80 * v, n) == Shl(d, n) + Shl(v, n + 7)
  {
    if n > 0 {
      ShlGroup(d, v, n - 1);
    } else {
      assert Shl(v, 1) == 2 * v;
      assert Shl(v, 2) == 4 * v;
      assert Shl(v, 3) == 8 * v;
      assert Shl(v, 4) == 16 * v;
      assert Shl(v, 5) == 32 * v;
      assert Shl(v, 6) == 64 * v;
    }
  }

  lemma {:induction false} ShlNegOne(n: nat)
    ensures Shl(-1, n) == -Shl(1, n)
  {
    if n > 0 { ShlNegOne(n - 1); }
  }

  lemma {:induction false} ShlMultiple(n: nat, bits: nat)
    requires (bits == 32 || bits == 64) && n >= bits
    ensures Wrap(Shl(1, n), bits) == 0
    decreases n
  {
    if n == bits { ShlBits(); } else { ShlMultiple(n - 1, bits); }
  }

  lemma ShlBits()
    ensures Shl(1, 32) == 0x1_0000_0000 && Shl(1, 64) == 0x1_0000_0000_0000_0000
  {
    ShlByte(1, 0); ShlByte(1, 8); ShlByte(1, 16); ShlByte(1, 24);
    ShlByte(1, 32); ShlByte(1, 40); ShlByte(1, 48); ShlByte(1, 56);
  }

  lemma {:induction false} ShlByte(x: int, n: nat)
    ensures Shl(x, n + 8) == 0x100 * Shl(x, n)
  {
    assert Shl(x, n + 2) == 4 * Shl(x, n);
    assert Shl(x, n + 4) == 4 * Shl(x, n + 2);
    assert Shl(x, n + 6) == 4 * Shl(x, n + 4);
  }
}
