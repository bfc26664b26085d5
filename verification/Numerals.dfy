/** Number literals: parse_int_lit and strtol, and their inverse on decimal text. */
module Numerals {
  import opened Bytes

  function Digit(c: char): nat
  {
    if '0' <= c <= '9' then c as int - '0' as int
    else if 'a' <= c <= 'f' then c as int - 'a' as int + 10
    else if 'A' <= c <= 'F' then c as int - 'A' as int + 10
    else 0xFF
  }

  /** The loop of parse_int_lit over the digits: the value modulo 2^64, or a bad digit. */
  function DigitsFrom(s: string, base: nat, v: u64): Option<u64>
    decreases s
  {
    if s == [] then Some(v)
    else if s[0] == '_' then DigitsFrom(s[1..], base, v)
    else if Digit(s[0]) >= base then None
    else DigitsFrom(s[1..], base, Wrap64(v * base + Digit(s[0])))
  }

  predicate Signed(s: string) { s != [] && (s[0] == '+' || s[0] == '-') }

  predicate IsHex(s: string) { |s| >= 2 && s[0] == '0' && (s[1] == 'x' || s[1] == 'X') }

  /** The int64_t a literal stands for; None: rejected. */
  function IntLit(s: string): (r: Option<int>)
    ensures r.Some? ==> -0x8000_0000_0000_0000 <= r.value < 0x8000_0000_0000_0000
  {
    var neg := s != [] && s[0] == '-';
    var t := if Signed(s) then s[1..] else s;
    var base := if IsHex(t) then 16 else 10;
    var digits := if IsHex(t) then t[2..] else t;
    if digits == [] then None
    else
      match DigitsFrom(digits, base, 0)
      case None => None
      case Some(v) => Some(Signed64(if neg then Wrap64(0 - v) else v))
  }

  /** parse_int_lit. */
  method ParseIntLit(s: string) returns (r: Option<int>)
    ensures r == IntLit(s)
  {
    var i, neg := 0, false;
    if Signed(s) { neg := s[0] == '-'; i := 1; }
    var base := 10;
    if IsHex(s[i..]) { base := 16; i := i + 2; }
    if i >= |s| { return None; }
    var v: u64 := 0;
    ghost var digits := s[i..];
    assert digits == (if Signed(s) then s[1..] else s)[(if base == 16 then 2 else 0)..];
    while i < |s|
      invariant i <= |s|
      invariant DigitsFrom(digits, base, 0) == DigitsFrom(s[i..], base, v)
    {
      assert s[i..][1..] == s[i + 1..];
      if s[i] != '_' {
        var d := Digit(s[i]);
        if d >= base { return None; }
        v := Wrap64(v * base + d);
      }
      i := i + 1;
    }
    return Some(Signed64(if neg then Wrap64(0 - v) else v));
  }

  /** Decimal digits, most significant first. */
  function Dec(n: nat): (r: string)
    ensures |r| >= 1
  {
    if n < 10 then [('0' as int + n) as char] else Dec(n / 10) + [('0' as int + n % 10) as char]
  }

  function IntText(v: int): string { if v < 0 then "-" + Dec(-v) else Dec(v) }

  predicate AllDigits(s: string) { forall i :: 0 <= i < |s| ==> '0' <= s[i] <= '9' }

  lemma {:induction false} DecIsDigits(n: nat)
    ensures AllDigits(Dec(n))
  {
    if n >= 10 { DecIsDigits(n / 10); }
  }

  lemma {:induction false} DigitsSnoc(s: string, base: nat, v: u64, c: char)
    requires c != '_' && Digit(c) < base
    ensures DigitsFrom(s + [c], base, v)
         == match DigitsFrom(s, base, v) case None => None case Some(w) => Some(Wrap64(w * base + Digit(c)))
    decreases s
  {
    if s == [] {
      assert s + [c] == [c];
      assert [c][1..] == [];
    } else {
      assert (s + [c])[1..] == s[1..] + [c];
      if s[0] == '_' {
        DigitsSnoc(s[1..], base, v, c);
      } else if Digit(s[0]) < base {
        DigitsSnoc(s[1..], base, Wrap64(v * base + Digit(s[0])), c);
      }
    }
  }

  lemma {:induction false} DigitsOfDec(n: nat)
    requires n < 0x1_0000_0000_0000_0000
    ensures DigitsFrom(Dec(n), 10, 0) == Some(n)
  {
    hide Digit, DigitsFrom;
    if n < 10 {
      var c := ('0' as int + n) as char;
      assert Dec(n) == [] + [c];
      DigitIs(n);
      DigitsSnoc([], 10, 0, c);
      NoDigits(10, 0);
    } else {
      DigitsOfDec(n / 10);
      DigitIs(n % 10);
      DigitsSnoc(Dec(n / 10), 10, 0, ('0' as int + n % 10) as char);
    }
  }

  lemma DigitIs(d: nat)
    requires d < 10
    ensures var c := ('0' as int + d) as char; c != '_' && Digit(c) == d
  {
  }

  lemma NoDigits(base: nat, v: u64)
    ensures DigitsFrom([], base, v) == Some(v)
  {
  }

  /** Every int64_t is read back from its decimal text. */
  lemma {:induction false} IntLitOfText(v: int)
    requires -0x8000_0000_0000_0000 <= v < 0x8000_0000_0000_0000
    ensures IntLit(IntText(v)) == Some(v)
  {
    hide Dec, DigitsFrom, IsHex, AllDigits;
    var n := if v < 0 then -v else v;
    DigitsOfDec(n);
    DecIsDigits(n);
    DecIsDecimal(n);
    if v < 0 { assert IntText(v)[1..] == Dec(n); }
  }

  lemma DecIsDecimal(n: nat)
    ensures !Signed(Dec(n)) && !IsHex(Dec(n))
  {
    DecIsDigits(n);
  }

  // ----- strtol, base 10 -----

  function StrDigits(s: string, v: nat): Option<nat>
    decreases s
  {
    if s == [] then Some(v)
    else if !('0' <= s[0] <= '9') then None
    else StrDigits(s[1..], 10 * v + Digit(s[0]))
  }

  /**
   The check around strtol in resolve_name and resolve_label_depth: the whole of a nonempty atom is a
   decimal number and it is not negative. A number past LONG_MAX reads as LONG_MAX.
   */
  function IndexText(s: string): Option<nat>
  {
    var t := if Signed(s) then s[1..] else s;
    if t == [] then None
    else
      match StrDigits(t, 0)
      case None => None
      case Some(v) =>
        if s[0] == '-' && v > 0 then None
        else Some(if v > 0x7FFF_FFFF_FFFF_FFFF then 0x7FFF_FFFF_FFFF_FFFF else v)
  }

  lemma {:induction false} StrDigitsSnoc(s: string, v: nat, c: char)
    requires '0' <= c <= '9'
    ensures StrDigits(s + [c], v)
         == match StrDigits(s, v) case None => None case Some(w) => Some(10 * w + Digit(c))
    decreases s
  {
    if s == [] {
      assert s + [c] == [c];
      assert [c][1..] == [];
    } else {
      assert (s + [c])[1..] == s[1..] + [c];
      if '0' <= s[0] <= '9' { StrDigitsSnoc(s[1..], 10 * v + Digit(s[0]), c); }
    }
  }

  lemma {:induction false} StrDigitsOfDec(n: nat)
    ensures StrDigits(Dec(n), 0) == Some(n)
  {
    if n < 10 {
      var c := ('0' as int + n) as char;
      assert Dec(n) == [] + [c];
      StrDigitsSnoc([], 0, c);
    } else {
      StrDigitsOfDec(n / 10);
      StrDigitsSnoc(Dec(n / 10), 0, ('0' as int + n % 10) as char);
    }
  }

  lemma IndexOfDec(n: nat)
    requires n <= 0x7FFF_FFFF_FFFF_FFFF
    ensures IndexText(Dec(n)) == Some(n) && Dec(n)[0] != '$'
  {
    StrDigitsOfDec(n);
    DecIsDigits(n);
    DecIsDecimal(n);
  }

  // ----- what literals stand for -----

  /** The character of a digit: 0 to 9, then a to f or A to F. */
  function DigitChar(d: nat, upper: bool): char
    requires d < 16
  {
    if d < 10 then ('0' as int + d) as char else if upper then ('A' as int + d - 10) as char else ('a' as int + d - 10) as char
  }

  /** These and no other characters are digits. */
  lemma DigitsAre(c: char, d: nat, upper: bool)
    ensures d < 16 ==> Digit(DigitChar(d, upper)) == d && DigitChar(d, upper) != '_'
    ensures Digit(c) < 16 ==> c == DigitChar(Digit(c), false) || c == DigitChar(Digit(c), true)
  {
  }

  /** Digits to the base, with underscores anywhere. */
  predicate Numeric(s: string, base: nat) { forall i :: 0 <= i < |s| ==> s[i] == '_' || Digit(s[i]) < base }

  /** The number they stand for, the highest digit first. */
  function Number(s: string, base: nat): nat
    decreases |s|
  {
    if s == [] then 0
    else
      var high, c := Number(s[..|s| - 1], base), s[|s| - 1];
      if c == '_' then high else high * base + Digit(c)
  }

  /** The scanner takes exactly such text, and cuts the number to 64 bits. */
  lemma {:induction false} DigitsFromIs(s: string, base: nat)
    ensures DigitsFrom(s, base, 0) == if Numeric(s, base) then Some(Wrap64(Number(s, base))) else None
    decreases |s|
  {
    hide Digit, DigitsFrom;
    if s != [] {
      var h, c := s[..|s| - 1], s[|s| - 1];
      assert s == h + [c];
      DigitsFromIs(h, base);
      NumericSnoc(h, c, base);
      DigitsMore(h, base, 0, c);
      if c != '_' { WrapDigit(Number(h, base), base, Digit(c)); }
    } else {
      NoDigits(base, 0);
    }
  }

  lemma NumericSnoc(h: string, c: char, base: nat)
    ensures Numeric(h + [c], base) <==> Numeric(h, base) && (c == '_' || Digit(c) < base)
  {
    var s := h + [c];
    assert s[|h|] == c && forall i :: 0 <= i < |h| ==> s[i] == h[i];
  }

  lemma WrapDigit(v: nat, base: nat, d: nat)
    ensures Wrap64(Wrap64(v) * base + d) == Wrap64(v * base + d)
  {
    var m := 0x1_0000_0000_0000_0000;
    assert v == (v / m) * m + v % m;
    assert v * base + d == ((v / m) * base) * m + (Wrap64(v) * base + d);
    ModShift(Wrap64(v) * base + d, m, (v / m) * base);
  }

  lemma ModShift(x: int, m: int, k: int)
    requires m > 0
    ensures (k * m + x) % m == x % m
  {
    assert x == (x / m) * m + x % m;
    assert k * m + x == (k + x / m) * m + x % m;
    ModUnique(k * m + x, m, k + x / m, x % m);
  }

  /** One more character after the others. */
  lemma {:induction false} DigitsMore(s: string, base: nat, v: u64, c: char)
    ensures DigitsFrom(s + [c], base, v) == match DigitsFrom(s, base, v)
      case None => None
      case Some(w) => if c == '_' then Some(w) else if Digit(c) >= base then None else Some(Wrap64(w * base + Digit(c)))
    decreases s
  {
    if s == [] {
      assert s + [c] == [c];
      assert [c][1..] == [];
    } else {
      assert (s + [c])[1..] == s[1..] + [c];
      if s[0] == '_' {
        DigitsMore(s[1..], base, v, c);
      } else if Digit(s[0]) < base {
        DigitsMore(s[1..], base, Wrap64(v * base + Digit(s[0])), c);
      }
    }
  }

  /**
   A literal: perhaps a sign, perhaps a prefix, and digits. It is accepted exactly if there are characters after the
   prefix and all are digits to its base or underscores, and stands for their number, cut to 64 bits.
   */
  lemma IntLitIs(sign: string, prefix: string, s: string)
    requires (sign == "" || sign == "+" || sign == "-") && (prefix == "" || prefix == "0x" || prefix == "0X")
    requires prefix == "" ==> !Signed(s) && !IsHex(s)
    ensures var base, n := if prefix == "" then 10 else 16, Number(s, if prefix == "" then 10 else 16);
      IntLit(sign + (prefix + s))
        == if s != [] && Numeric(s, base) then Some(Signed64(Wrap64(if sign == "-" then 0 - n else n))) else None
  {
    hide IntLit, DigitsFrom, Number, Numeric, IsHex, Signed;
    var base := if prefix == "" then 10 else 16;
    Prefixed(prefix, s);
    SignApart(sign, prefix + s);
    IntLitParts(sign + (prefix + s), prefix + s, sign == "-", base, s);
    DigitsFromIs(s, base);
    NegWrap(Number(s, base));
  }

  lemma IntLitParts(text: string, rest: string, neg: bool, base: nat, digits: string)
    requires rest == (if Signed(text) then text[1..] else text) && (neg <==> text != [] && text[0] == '-')
    requires base == (if IsHex(rest) then 16 else 10) && digits == (if IsHex(rest) then rest[2..] else rest)
    ensures IntLit(text) == if digits == [] then None else match DigitsFrom(digits, base, 0)
      case None => None
      case Some(v) => Some(Signed64(if neg then Wrap64(0 - v) else v))
  {
    hide DigitsFrom;
  }

  lemma SignApart(sign: string, rest: string)
    requires (sign == "" || sign == "+" || sign == "-") && (sign == "" ==> !Signed(rest))
    ensures (if Signed(sign + rest) then (sign + rest)[1..] else sign + rest) == rest
    ensures sign + rest != [] && (sign + rest)[0] == '-' <==> sign == "-"
  {
    if sign == "" { assert sign + rest == rest; }
  }

  lemma Prefixed(prefix: string, s: string)
    requires (prefix == "" && !Signed(s) && !IsHex(s)) || prefix == "0x" || prefix == "0X"
    ensures !Signed(prefix + s) && (IsHex(prefix + s) <==> prefix != "")
    ensures (if IsHex(prefix + s) then (prefix + s)[2..] else prefix + s) == s
  {
    if prefix == "" { assert prefix + s == s; } else { assert (prefix + s)[2..] == s; }
  }

  lemma NegWrap(n: nat)
    ensures Wrap64(0 - Wrap64(n)) == Wrap64(0 - n)
  {
  }

  function Hex(n: nat, upper: bool): (r: string)
    ensures |r| >= 1
  {
    if n < 16 then [DigitChar(n, upper)] else Hex(n / 16, upper) + [DigitChar(n % 16, upper)]
  }

  /** Every 64-bit pattern is read back from its hexadecimal text. */
  lemma {:induction false} IntLitOfHex(n: nat, upper: bool)
    requires n < 0x1_0000_0000_0000_0000
    ensures IntLit("0x" + Hex(n, upper)) == Some(Signed64(n))
  {
    hide Number, Numeric, IntLit, Hex;
    HexIs(n, upper);
    IntLitIs("", "0x", Hex(n, upper));
    assert "" + ("0x" + Hex(n, upper)) == "0x" + Hex(n, upper);
  }

  lemma {:induction false} HexIs(n: nat, upper: bool)
    ensures Numeric(Hex(n, upper), 16) && Number(Hex(n, upper), 16) == n
  {
    hide Digit, DigitChar, Number, Numeric;
    DigitsAre(' ', n % 16, upper);
    var c := DigitChar(n % 16, upper);
    if n >= 16 {
      HexIs(n / 16, upper);
      NumericSnoc(Hex(n / 16, upper), c, 16);
      NumberSnoc(Hex(n / 16, upper), c, 16);
    } else {
      NumericSnoc([], c, 16);
      NumberSnoc([], c, 16);
      NoNumber(16);
      assert Hex(n, upper) == [] + [c];
    }
  }

  lemma NoNumber(base: nat)
    ensures Number([], base) == 0 && Numeric([], base)
  {
  }

  lemma NumberSnoc(h: string, c: char, base: nat)
    ensures Number(h + [c], base) == if c == '_' then Number(h, base) else Number(h, base) * base + Digit(c)
  {
    assert (h + [c])[..|h|] == h;
  }

  /** strtol's text: decimal digits only; the number is not cut but held at LONG_MAX. */
  lemma {:induction false} StrDigitsIs(s: string)
    ensures StrDigits(s, 0) == if AllDigits(s) then Some(Number(s, 10)) else None
    decreases |s|
  {
    hide Digit, StrDigits;
    if s != [] {
      var h, c := s[..|s| - 1], s[|s| - 1];
      assert s == h + [c];
      StrDigitsIs(h);
      StrDigitsMore(h, 0, c);
      assert AllDigits(s) <==> AllDigits(h) && '0' <= c <= '9' by {
        assert s[|h|] == c && forall i :: 0 <= i < |h| ==> s[i] == h[i];
      }
    } else {
      NoStrDigits();
    }
  }

  lemma NoStrDigits()
    ensures StrDigits([], 0) == Some(0)
  {
  }

  lemma {:induction false} StrDigitsMore(s: string, v: nat, c: char)
    ensures StrDigits(s + [c], v) == match StrDigits(s, v)
      case None => None
      case Some(w) => if '0' <= c <= '9' then Some(10 * w + Digit(c)) else None
    decreases s
  {
    if s == [] {
      assert s + [c] == [c];
      assert [c][1..] == [];
    } else {
      assert (s + [c])[1..] == s[1..] + [c];
      if '0' <= s[0] <= '9' { StrDigitsMore(s[1..], 10 * v + Digit(s[0]), c); }
    }
  }

  /** An index: perhaps a sign and decimal digits, of a number that is not negative. */
  lemma IndexTextIs(sign: string, s: string)
    requires (sign == "" || sign == "+" || sign == "-") && (sign == "" ==> !Signed(s))
    ensures var n := Number(s, 10);
      IndexText(sign + s) == if s == [] || !AllDigits(s) || (sign == "-" && n > 0) then None
        else Some(if n <= 0x7FFF_FFFF_FFFF_FFFF then n else 0x7FFF_FFFF_FFFF_FFFF)
  {
    hide Number, AllDigits, StrDigits;
    SignApart(sign, s);
    StrDigitsIs(s);
  }
}
