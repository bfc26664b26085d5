/** Words, opcodes and what they run, in the numbering of section 5.4 of the WebAssembly Core Specification 1.0. */
module Opcodes {
  import opened Bytes
  import opened Leb
  import opened Isa
  import opened Source
  import A = Assembler
  import E = Emission

  const BINS: seq<(string, BinOp)> :=
    [("add", Add), ("sub", Sub), ("mul", Mul), ("div_s", DivS), ("div_u", DivU), ("rem_s", RemS), ("rem_u", RemU),
     ("and", And), ("or", Or), ("xor", Xor), ("shl", Shl), ("shr_s", ShrS), ("shr_u", ShrU), ("rotl", Rotl), ("rotr", Rotr)]

  const RELS: seq<(string, RelOp)> :=
    [("eq", Eq), ("ne", Ne), ("lt_s", LtS), ("lt_u", LtU), ("gt_s", GtS), ("gt_u", GtU), ("le_s", LeS), ("le_u", LeU),
     ("ge_s", GeS), ("ge_u", GeU)]

  const UNS: seq<(string, UnOp)> := [("clz", Clz), ("ctz", Ctz), ("popcnt", Popcnt)]

  /** The k-th binary operator's word is assembled to the k-th opcode from 0x6A or 0x7C on, which runs that operator. */
  lemma BinOpcodes(w: Width, k: nat)
    requires k < 15
    ensures var b: byte := (if w == W32 then 0x6A else 0x7C) + k;
      A.LookupOpcode((if w == W32 then "i32." else "i64.") + BINS[k].0) == Some(b) && Bare(b) == Some(Bin(w, BINS[k].1))
  {
    hide A.LookupOpcode, A.LookupTyped;
    var op := BINS[k].1;
    E.LookupSuffix(w, BINS[k].0);
    BinWords(k);
    E.TypedBin(w, op);
  }

  lemma BinWords(k: nat)
    requires k < 15
    ensures BinName(BINS[k].1) == BINS[k].0 && BinCode(W32, BINS[k].1) == 0x6A + k && BinCode(W64, BINS[k].1) == 0x7C + k
  {
  }

  lemma RelOpcodes(w: Width, k: nat)
    requires k < 10
    ensures var b: byte := (if w == W32 then 0x46 else 0x51) + k;
      A.LookupOpcode((if w == W32 then "i32." else "i64.") + RELS[k].0) == Some(b) && Bare(b) == Some(Rel(w, RELS[k].1))
  {
    hide A.LookupOpcode, A.LookupTyped;
    E.LookupSuffix(w, RELS[k].0);
    RelWords(k);
    E.TypedRel(w, RELS[k].1);
  }

  lemma RelWords(k: nat)
    requires k < 10
    ensures RelName(RELS[k].1) == RELS[k].0 && RelCode(W32, RELS[k].1) == 0x46 + k && RelCode(W64, RELS[k].1) == 0x51 + k
  {
  }

  lemma UnOpcodes(w: Width, k: nat)
    requires k < 3
    ensures var b: byte := (if w == W32 then 0x67 else 0x79) + k;
      A.LookupOpcode((if w == W32 then "i32." else "i64.") + UNS[k].0) == Some(b) && Bare(b) == Some(Un(w, UNS[k].1))
  {
    hide A.LookupOpcode, A.LookupTyped;
    E.LookupSuffix(w, UNS[k].0);
    E.TypedUn(w, UNS[k].1);
  }

  lemma OtherOpcodes()
    ensures A.LookupOpcode("i32.eqz") == Some(0x45) && Bare(0x45) == Some(Un(W32, Eqz))
    ensures A.LookupOpcode("i64.eqz") == Some(0x50) && Bare(0x50) == Some(Un(W64, Eqz))
    ensures A.LookupOpcode("i32.wrap_i64") == Some(0xA7) && Bare(0xA7) == Some(Cvt(WrapI64))
    ensures A.LookupOpcode("i64.extend_i32_s") == Some(0xAC) && Bare(0xAC) == Some(Cvt(ExtendS))
    ensures A.LookupOpcode("i64.extend_i32_u") == Some(0xAD) && Bare(0xAD) == Some(Cvt(ExtendU))
  {
    hide A.LookupOpcode, A.LookupTyped;
    E.LookupSuffix(W32, "eqz");
    E.LookupSuffix(W64, "eqz");
    E.LookupSuffix(W32, "wrap_i64");
    E.LookupSuffix(W64, "extend_i32_s");
    E.LookupSuffix(W64, "extend_i32_u");
    assert "i32." + "eqz" == "i32.eqz" && "i64." + "eqz" == "i64.eqz" && "i32." + "wrap_i64" == "i32.wrap_i64"
      && "i64." + "extend_i32_s" == "i64.extend_i32_s" && "i64." + "extend_i32_u" == "i64.extend_i32_u";
    E.TypedUn(W32, Eqz);
    E.TypedUn(W64, Eqz);
    E.TypedCvt(WrapI64);
    E.TypedCvt(ExtendS);
    E.TypedCvt(ExtendU);
  }

  const ACCESSES: seq<(string, Width, nat, bool)> :=
    [("load", W32, 4, false), ("load", W64, 8, false), ("", W32, 0, false), ("", W32, 0, false),
     ("load8_s", W32, 1, true), ("load8_u", W32, 1, false), ("load16_s", W32, 2, true), ("load16_u", W32, 2, false),
     ("load8_s", W64, 1, true), ("load8_u", W64, 1, false), ("load16_s", W64, 2, true), ("load16_u", W64, 2, false),
     ("load32_s", W64, 4, true), ("load32_u", W64, 4, false),
     ("store", W32, 4, false), ("store", W64, 8, false), ("", W32, 0, false), ("", W32, 0, false),
     ("store8", W32, 1, false), ("store16", W32, 2, false),
     ("store8", W64, 1, false), ("store16", W64, 2, false), ("store32", W64, 4, false)]

  /** From 0x28 on the loads, from 0x36 on the stores, with a gap of two each where the floating-point ones are. */
  lemma AccessOpcodes(k: nat)
    requires k < 23 && k !in [2, 3, 16, 17]
    ensures var (m, w, n, s) := ACCESSES[k]; var b: byte := 0x28 + k;
      A.LookupOpcode((if w == W32 then "i32." else "i64.") + m) == Some(b) && Access(b) == Some((w, n, s))
      && Fetch([b, 0x00, 0x05], 0) == Fetched(if k < 14 then Plain.Load(w, n, s, 5) else Plain.Store(w, n, 5), 3)
  {
    hide A.LookupOpcode, A.LookupTyped, Fetch;
    var (m, w, n, s) := ACCESSES[k];
    E.LookupSuffix(w, m);
    AccessWords(k);
    E.TypedAccess(w, n, s);
    AccessFetched(0x28 + k);
  }

  lemma AccessWords(k: nat)
    requires k < 23 && k !in [2, 3, 16, 17]
    ensures var (m, w, n, s) := ACCESSES[k];
      AccessWidth(w, n) && (n == Size(w) ==> !s) && Access(0x28 + k) == Some((w, n, s))
      && (k < 14 ==> LoadName(w, n, s) == m && LoadCode(w, n, s) == 0x28 + k)
      && (k >= 14 ==> StoreName(w, n) == m && StoreCode(w, n) == 0x28 + k)
  {
  }

  lemma AccessFetched(b: byte)
    requires 0x28 <= b <= 0x3E && Access(b).Some?
    ensures var (w, n, s) := Access(b).value;
      Fetch([b, 0x00, 0x05], 0) == Fetched(if b < 0x36 then Plain.Load(w, n, s, 5) else Plain.Store(w, n, 5), 3)
  {
    var code: seq<byte> := [b, 0x00, 0x05];
    assert ReadU32(code, 1) == Got(0, 2) && ReadU32(code, 2) == Got(5, 3);
  }

  lemma IndexOpcodes()
    ensures A.LookupOpcode("local.get") == Some(0x20) && Fetch([0x20, 0x05], 0) == Fetched(Plain.LocalGet(5), 2)
    ensures A.LookupOpcode("local.set") == Some(0x21) && Fetch([0x21, 0x05], 0) == Fetched(Plain.LocalSet(5), 2)
    ensures A.LookupOpcode("local.tee") == Some(0x22) && Fetch([0x22, 0x05], 0) == Fetched(Plain.LocalTee(5), 2)
    ensures A.LookupOpcode("global.get") == Some(0x23) && Fetch([0x23, 0x05], 0) == Fetched(Plain.GlobalGet(5), 2)
    ensures A.LookupOpcode("global.set") == Some(0x24) && Fetch([0x24, 0x05], 0) == Fetched(Plain.GlobalSet(5), 2)
    ensures A.LookupOpcode("memory.size") == Some(0x3F) && Fetch([0x3F, 0x00], 0) == Fetched(Plain.MemSize, 2)
    ensures A.LookupOpcode("memory.grow") == Some(0x40) && Fetch([0x40, 0x00], 0) == Fetched(Plain.MemGrow, 2)
  {
    hide A.LookupOpcode;
    E.VariableKeywords();
    E.LongKeywords();
    forall b: byte, v: byte | v < 0x80 ensures ReadU32([b, v], 1) == Got(v, 2) {
    }
  }

  /** The words without immediates that are not numeric, and those of the constructs. */
  lemma PlainOpcodes()
    ensures A.LookupOpcode("unreachable") == Some(0x00) && Bare(0x00) == Some(Unreachable)
    ensures A.LookupOpcode("nop") == Some(0x01) && Bare(0x01) == Some(Nop)
    ensures A.LookupOpcode("drop") == Some(0x1A) && Bare(0x1A) == Some(Plain.Drop)
    ensures A.LookupOpcode("select") == Some(0x1B) && Bare(0x1B) == Some(Plain.Select)
    ensures A.LookupOpcode("return") == Some(0x0F) && A.LookupOpcode("br") == Some(0x0C) && A.LookupOpcode("br_if") == Some(0x0D)
    ensures A.LookupOpcode("call") == Some(0x10) && A.LookupOpcode("call_indirect") == Some(0x11)
    ensures A.LookupOpcode("block") == Some(0x02) && A.LookupOpcode("loop") == Some(0x03) && A.LookupOpcode("if") == Some(0x04)
    ensures A.LookupOpcode("else") == Some(0x05) && A.LookupOpcode("end") == Some(0x0B)
    ensures A.LookupOpcode("i32.const") == Some(0x41) && A.LookupOpcode("i64.const") == Some(0x42)
  {
    hide A.LookupTyped;
    E.ConstructKeywords();
    E.ShortKeywords();
    E.LongKeywords();
    E.ConstKeywords();
  }

  // ----- and no other words -----

  predicate Typed(w: Width, m: string)
  {
    || m in ["eq", "ne", "or"]
    || m in ["eqz", "clz", "ctz", "add", "sub", "mul", "and", "xor", "shl"]
    || m in ["load", "lt_s", "lt_u", "gt_s", "gt_u", "le_s", "le_u", "ge_s", "ge_u", "rotl", "rotr"]
    || m in ["store", "const", "div_s", "div_u", "rem_s", "rem_u", "shr_s", "shr_u"]
    || m in ["store8", "popcnt", "load8_s", "load8_u", "store16", "load16_s", "load16_u"]
    || (w == W32 && m == "wrap_i64")
    || (w == W64 && m in ["load32_s", "load32_u", "store32", "extend_i32_s", "extend_i32_u"])
  }

  predicate Short(m: string)
  {
    m in ["if", "br", "nop", "end", "loop", "else", "call", "drop", "block", "br_if", "return", "select"]
  }

  predicate Long(m: string)
  {
    || m in ["br_table", "local.get", "local.set", "local.tee", "global.get", "global.set"]
    || m in ["unreachable", "memory.size", "memory.grow", "call_indirect"]
  }

  predicate Word(m: string)
  {
    || (|m| >= 4 && m[..4] == "i32." && Typed(W32, m[4..])) || (|m| >= 4 && m[..4] == "i64." && Typed(W64, m[4..]))
    || Short(m) || Long(m)
  }

  lemma TypedIff(w: Width, m: string)
    ensures A.LookupTyped(w, m).Some? <==> Typed(w, m)
  {
    hide A.Typed2, A.Typed3, A.Typed4, A.Typed5, A.Typed6, A.Typed7, A.Typed8, A.Typed12;
    if |m| == 2 { Two(w, m); } else if |m| == 3 { Three(w, m); } else if |m| == 4 { Four(w, m); }
    else if |m| == 5 { Five(w, m); } else if |m| == 6 { Six(w, m); } else if |m| == 7 { Seven(w, m); }
    else if |m| == 8 { Eight(w, m); } else if |m| == 12 { Twelve(w, m); }
  }

  lemma Two(w: Width, m: string)
    requires |m| == 2
    ensures A.Typed2(w, m).Some? <==> Typed(w, m)
  {
  }

  lemma Three(w: Width, m: string)
    requires |m| == 3
    ensures A.Typed3(w, m).Some? <==> Typed(w, m)
  {
  }

  lemma Four(w: Width, m: string)
    requires |m| == 4
    ensures A.Typed4(w, m).Some? <==> Typed(w, m)
  {
  }

  lemma Five(w: Width, m: string)
    requires |m| == 5
    ensures A.Typed5(w, m).Some? <==> Typed(w, m)
  {
  }

  lemma Six(w: Width, m: string)
    requires |m| == 6
    ensures A.Typed6(w, m).Some? <==> Typed(w, m)
  {
  }

  lemma Seven(w: Width, m: string)
    requires |m| == 7
    ensures A.Typed7(w, m).Some? <==> Typed(w, m)
  {
  }

  lemma Eight(w: Width, m: string)
    requires |m| == 8
    ensures A.Typed8(w, m).Some? <==> Typed(w, m)
  {
  }

  lemma Twelve(w: Width, m: string)
    requires |m| == 12
    ensures A.Typed12(w, m).Some? <==> Typed(w, m)
  {
  }

  lemma ShortIff(m: string)
    ensures A.LookupShort(m).Some? <==> Short(m)
    ensures Short(m) ==> |m| <= 6 && !A.OfWidth(m, '3', '2') && !A.OfWidth(m, '6', '4')
  {
  }

  lemma LongIff(m: string)
    ensures A.LookupLong(m).Some? <==> Long(m)
    ensures Long(m) ==> |m| > 6 && !A.OfWidth(m, '3', '2') && !A.OfWidth(m, '6', '4')
  {
  }

  /** The assembler knows these words and no others. */
  lemma WordsIff(m: string)
    ensures A.LookupOpcode(m).Some? <==> Word(m)
  {
    hide A.LookupTyped, A.LookupShort, A.LookupLong, Typed, Short, Long;
    if |m| >= 4 { TypedIff(W32, m[4..]); TypedIff(W64, m[4..]); }
    ShortIff(m);
    LongIff(m);
  }

  /** The interpreter of the model runs these bytes and no others; the floating-point ones among the rest are left out. */
  lemma BytesIff(b: byte)
    ensures Bare(b).Some? <==> b in [0x00, 0x01, 0x1A, 0x1B, 0xA7, 0xAC, 0xAD] || 0x45 <= b <= 0x5A || 0x67 <= b <= 0x8A
    ensures Access(b).Some? <==> 0x28 <= b <= 0x3E && b !in [0x2A, 0x2B, 0x38, 0x39]
    ensures Fetch([b, 0x00, 0x00], 0).Fetched? <==> Bare(b).Some? || Access(b).Some? || 0x20 <= b <= 0x24 || 0x3F <= b <= 0x42
  {
    hide Bare, Access;
    BareIff(b);
    AccessIff(b);
    FetchIff(b);
  }

  lemma BareIff(b: byte)
    ensures Bare(b).Some? <==> b in [0x00, 0x01, 0x1A, 0x1B, 0xA7, 0xAC, 0xAD] || 0x45 <= b <= 0x5A || 0x67 <= b <= 0x8A
  {
    hide BinAt, RelAt, UnAt;
  }

  lemma AccessIff(b: byte)
    ensures Access(b).Some? <==> 0x28 <= b <= 0x3E && b !in [0x2A, 0x2B, 0x38, 0x39]
  {
  }

  lemma FetchIff(b: byte)
    ensures Fetch([b, 0x00, 0x00], 0).Fetched? <==> Bare(b).Some? || Access(b).Some? || 0x20 <= b <= 0x24 || 0x3F <= b <= 0x42
  {
    hide Bare, Access;
    var code: seq<byte> := [b, 0x00, 0x00];
    BareIff(b);
    AccessIff(b);
    assert ReadU32(code, 1) == Got(0, 2) && ReadU32(code, 2) == Got(0, 3);
    assert ReadSigned(code, 1, 32) == Got(0, 2) && ReadSigned(code, 1, 64) == Got(0, 2);
  }
}
