/** Machine integers and their little-endian byte strings. */
module Bytes {
  type byte = x: int | 0 <= x < 0x100
  type u32 = x: int | 0 <= x < 0x1_0000_0000
  type u64 = x: int | 0 <= x < 0x1_0000_0000_0000_0000

  datatype Option<+T> = None | Some(value: T)

  /** C's conversions of an integer to uint32_t and uint64_t. */
  function Wrap32(x: int): (r: u32) { x % 0x1_0000_0000 }

  function Wrap64(x: int): (r: u64) { x % 0x1_0000_0000_0000_0000 }

  /** C's conversion of a 32-bit pattern to int32_t; Signed64 is the one to int64_t. */
  function Signed32(x: u32): int { if x < 0x8000_0000 then x else x - 0x1_0000_0000 }

  function Signed64(x: u64): int { if x < 0x8000_0000_0000_0000 then x else x - 0x1_0000_0000_0000_0000 }

  function Pow(b: nat, n: nat): nat { if n == 0 then 1 else b * Pow(b, n - 1) }

  // Le and FromLe pass through two more functions at each digit. Dafny unfolds at most two of them unasked, so their
  // arithmetic, costly and rarely what a proof is about, appears only where LeDigit or FromLeDigit is called.

  /** The n low bytes of v, least significant first: what memcpy of an integer stores. */
  function Le(v: nat, n: nat): (r: seq<byte>)
    ensures |r| == n
    decreases n, v, 2
  {
    if n == 0 then [] else LeMore(v, n)
  }

  function LeMore(v: nat, n: nat): (r: seq<byte>)
    requires n > 0
    ensures |r| == n
    decreases n, v, 1
  {
    LeLast(v, n)
  }

  function LeLast(v: nat, n: nat): (r: seq<byte>)
    requires n > 0
    ensures |r| == n
    decreases n, v, 0
  {
    [v % 0x100] + Le(v / 0x100, n - 1)
  }

  lemma LeDigit(v: nat, n: nat)
    requires n > 0
    ensures Le(v, n) == [v % 0x100] + Le(v / 0x100, n - 1)
  {
    assert LeMore(v, n) == LeLast(v, n);
  }

  /** The integer a little-endian byte string stands for. */
  function FromLe(b: seq<byte>): nat
    decreases |b|, 2
  {
    if b == [] then 0 else FromLeMore(b)
  }

  function FromLeMore(b: seq<byte>): nat
    requires b != []
    decreases |b|, 1
  {
    FromLeLast(b)
  }

  function FromLeLast(b: seq<byte>): nat
    requires b != []
    decreases |b|, 0
  {
    b[0] + 0x100 * FromLe(b[1..])
  }

  lemma FromLeDigit(b: seq<byte>)
    requires b != []
    ensures FromLe(b) == b[0] + 0x100 * FromLe(b[1..])
  {
    assert FromLeMore(b) == FromLeLast(b);
  }

  lemma {:induction false} FromLeBound(b: seq<byte>)
    ensures FromLe(b) < Pow(0x100, |b|)
  {
    if b != [] {
      FromLeDigit(b);
      FromLeBound(b[1..]);
    }
  }

  lemma {:induction false} PowPositive(b: nat, n: nat)
    requires b > 0
    ensures Pow(b, n) > 0
  {
    if n > 0 { PowPositive(b, n - 1); MulPositive(b, Pow(b, n - 1)); }
  }

  lemma MulPositive(x: int, y: int)
    requires x > 0 && y > 0
    ensures x * y > 0
  {
  }

  /** Reading back n stored bytes gives the value modulo 256^n. */
  lemma {:induction false} FromLeOfLe(v: nat, n: nat)
    ensures Pow(0x100, n) > 0
    ensures FromLe(Le(v, n)) == v % Pow(0x100, n)
  {
    PowPositive(0x100, n);
    if n > 0 {
      LeDigit(v, n);
      FromLeDigit(Le(v, n));
      FromLeOfLe(v / 0x100, n - 1);
      var p := Pow(0x100, n - 1);
      assert Le(v, n)[1..] == Le(v / 0x100, n - 1);
      ModDigit(v, p);
    }
  }

  lemma ModDigit(v: nat, p: nat)
    requires p > 0
    ensures v % 0x100 + 0x100 * ((v / 0x100) % p) == v % (0x100 * p)
  {
    var q, d := v / 0x100, v % 0x100;
    var r, k := q % p, q / p;
    assert q == k * p + r;
    assert v == k * (0x100 * p) + (0x100 * r + d);
    ModUnique(v, 0x100 * p, k, 0x100 * r + d);
  }

  lemma ModUnique(v: int, m: int, k: int, r: int)
    requires m > 0 && 0 <= r < m && v == k * m + r
    ensures v / m == k && v % m == r
  {
    var k', r' := v / m, v % m;
    assert v == k' * m + r';
    assert (k - k') * m == r' - r;
    if k > k' { MulAtLeast(k - k', m); }
    assert (k' - k) * m == r - r';
    if k < k' { MulAtLeast(k' - k, m); }
  }

  lemma MulAtLeast(x: int, m: int)
    requires x >= 1 && m > 0
    ensures x * m >= m
  {
  }

  lemma Pow256()
    ensures Pow(0x100, 1) == 0x100 && Pow(0x100, 2) == 0x1_0000
    ensures Pow(0x100, 4) == 0x1_0000_0000 && Pow(0x100, 8) == 0x1_0000_0000_0000_0000
  {
    assert Pow(0x100, 0) == 1;
    assert Pow(0x100, 1) == 0x100;
    assert Pow(0x100, 2) == 0x1_0000;
    assert Pow(0x100, 3) == 0x100_0000;
    assert Pow(0x100, 4) == 0x1_0000_0000;
    assert Pow(0x100, 5) == 0x100_0000_0000;
    assert Pow(0x100, 6) == 0x1_0000_0000_0000;
    assert Pow(0x100, 7) == 0x100_0000_0000_0000;
  }

  /** Byte k is the number's k-th digit to base 256, the lowest first. */
  lemma {:induction false} LeIs(v: nat, n: nat, k: nat)
    requires k < n
    ensures Pow(0x100, k) > 0 && Le(v, n)[k] == v / Pow(0x100, k) % 0x100
  {
    LeDigit(v, n);
    PowPositive(0x100, k);
    if k > 0 {
      LeIs(v / 0x100, n - 1, k - 1);
      var p := Pow(0x100, k - 1);
      DivDigit(v, p);
      assert Le(v, n)[k] == Le(v / 0x100, n - 1)[k - 1];
    } else {
      assert Pow(0x100, 0) == 1;
    }
  }

  lemma DivDigit(v: nat, p: nat)
    requires p > 0
    ensures (v / 0x100) / p == v / (0x100 * p)
  {
    var q, d := v / 0x100, v % 0x100;
    var r, k := q % p, q / p;
    assert q == k * p + r;
    assert v == k * (0x100 * p) + (0x100 * r + d);
    ModUnique(v, 0x100 * p, k, 0x100 * r + d);
  }

  /** The round trip at the widths the machine pushes, pops, loads and stores. */
  lemma LeRoundTrip(v: nat)
    ensures FromLe(Le(v, 1)) == v % 0x100 && FromLe(Le(v, 2)) == v % 0x1_0000
    ensures FromLe(Le(v, 4)) == Wrap32(v) && FromLe(Le(v, 8)) == Wrap64(v)
  {
    Pow256();
    FromLeOfLe(v, 1); FromLeOfLe(v, 2); FromLeOfLe(v, 4); FromLeOfLe(v, 8);
  }

  lemma FromLeWidths(b: seq<byte>)
    ensures |b| == 1 ==> FromLe(b) < 0x100
    ensures |b| == 2 ==> FromLe(b) < 0x1_0000
    ensures |b| == 4 ==> FromLe(b) < 0x1_0000_0000
    ensures |b| == 8 ==> FromLe(b) < 0x1_0000_0000_0000_0000
  {
    Pow256();
    FromLeBound(b);
  }
}
