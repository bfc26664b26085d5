/**
 Integer arithmetic twice: as the interpreter computes it with C's operators, and as section 4.3.2
 of the WebAssembly Core Specification 1.0 defines it; and the exact operands on which they differ.
 */
module Alu {
  import opened Bytes
  import opened Leb
  import opened Isa

  /** 2^Bits(w). */
  function Modulus(w: Width): int { if w == W32 then 0x1_0000_0000 else 0x1_0000_0000_0000_0000 }

  function Cut(w: Width, x: int): (r: nat)
    ensures r < Modulus(w)
  {
    if w == W32 then Wrap32(x) else Wrap64(x)
  }

  predicate Fits(w: Width, x: nat) { x < Modulus(w) }

  /** The signed reading of a bit pattern. */
  function Sgn(w: Width, x: nat): int
  {
    if x < Modulus(w) / 2 then x else x - Modulus(w)
  }

  function Pow2(n: nat): (r: int)
    ensures r >= 1
  {
    if n == 0 then 1 else 2 * Pow2(n - 1)
  }

  /** C's >> of an unsigned value. */
  function Shr(x: nat, n: nat): nat { if n == 0 then x else Shr(x, n - 1) / 2 }

  function BitOr(a: nat, b: nat): nat
    decreases a + b
  {
    if a == 0 then b else if b == 0 then a
    else 2 * BitOr(a / 2, b / 2) + (if a % 2 == 1 || b % 2 == 1 then 1 else 0)
  }

  function BitAnd(a: nat, b: nat): nat
  {
    if a == 0 || b == 0 then 0
    else 2 * BitAnd(a / 2, b / 2) + (if a % 2 == 1 && b % 2 == 1 then 1 else 0)
  }

  function BitXor(a: nat, b: nat): nat
    decreases a + b
  {
    if a == 0 then b else if b == 0 then a
    else 2 * BitXor(a / 2, b / 2) + (if a % 2 != b % 2 then 1 else 0)
  }

  function LeadingZeros(x: nat, bits: nat): nat
  {
    if bits == 0 || x >= Pow2(bits - 1) then 0 else 1 + LeadingZeros(x, bits - 1)
  }

  function TrailingZeros(x: nat, bits: nat): nat
  {
    if bits == 0 || x % 2 == 1 then 0 else 1 + TrailingZeros(x / 2, bits - 1)
  }

  function Ones(x: nat): nat
  {
    if x == 0 then 0 else x % 2 + Ones(x / 2)
  }

  /** C's integer division, which truncates toward zero. */
  function TruncDiv(a: int, b: int): int
    requires b != 0
  {
    if a >= 0 then a / b else -((-a) / b)
  }

  function Bool(b: bool): nat { if b then 1 else 0 }

  // ----- the interpreter -----

  /**
   The case of exec_instructions for a binary operator: b was pushed before a. None: the program
   exits (division by zero) or C leaves the result undefined (the minimum divided by -1).
   */
  function CBin(w: Width, op: BinOp, b: nat, a: nat): Option<nat>
    requires Fits(w, b) && Fits(w, a)
  {
    match op
    case Add => Some(Cut(w, a + b))
    case Sub => Some(Cut(w, b - a))
    case Mul => Some(Cut(w, b * a))
    case DivS | DivU | RemS | RemU => if a == 0 then None else CDiv(w, op, b, a)
    case And | Or | Xor => Some(BitOp(op, b, a))
    case Shl | ShrS | ShrU | Rotl | Rotr => Some(CShift(w, op, b, a % Bits(w)))
  }

  function BitOp(op: BinOp, b: nat, a: nat): nat
  {
    if op == And then BitAnd(b, a) else if op == Or then BitOr(b, a) else BitXor(b, a)
  }

  function CDiv(w: Width, op: BinOp, b: nat, a: nat): Option<nat>
    requires Fits(w, b) && 0 < a && Fits(w, a)
  {
    if op == DivU then Some(b / a)
    else if op == RemU then Some(b % a)
    else if Sgn(w, b) == -(Modulus(w) / 2) && Sgn(w, a) == -1 then None
    else
      var q := TruncDiv(Sgn(w, b), Sgn(w, a));
      Some(Cut(w, if op == DivS then q else Sgn(w, b) - Sgn(w, a) * q))
  }

  function CShift(w: Width, op: BinOp, b: nat, n: nat): nat
    requires n < Bits(w)
  {
    var back := (Bits(w) - n) % Bits(w);
    if op == Shl then Cut(w, Leb.Shl(b, n))
    else if op == ShrS then CShrS(w, b, n)
    else if op == ShrU then Shr(b, n)
    else if op == Rotl then BitOr(Cut(w, Leb.Shl(b, n)), Shr(b, back))
    else BitOr(Shr(b, n), Cut(w, Leb.Shl(b, back)))
  }

  /** The arithmetic shift, or-ing in ones above the shifted pattern of a negative value. */
  function CShrS(w: Width, b: nat, n: nat): nat
    requires n < Bits(w)
  {
    if n == 0 then b
    else if b >= Modulus(w) / 2 then BitOr(Shr(b, n), Cut(w, Leb.Shl(Modulus(w) - 1, Bits(w) - n)))
    else BitOr(Shr(b, n), 0)
  }

  /** gt_s and ge_s pop into unsigned variables. */
  function CRel(w: Width, op: RelOp, b: nat, a: nat): bool
  {
    match op
    case Eq => b == a
    case Ne => b != a
    case LtS => Sgn(w, b) < Sgn(w, a)
    case LtU => b < a
    case GtS => b > a
    case GtU => b > a
    case LeS => Sgn(w, b) <= Sgn(w, a)
    case LeU => b <= a
    case GeS => b >= a
    case GeU => b >= a
  }

  function CUn(w: Width, op: UnOp, a: nat): nat
  {
    match op
    case Eqz => Bool(a == 0)
    case Clz => if a == 0 then Bits(w) else LeadingZeros(a, Bits(w))
    case Ctz => if a == 0 then Bits(w) else TrailingZeros(a, Bits(w))
    case Popcnt => Ones(a)
  }

  function CCvt(op: CvtOp, a: nat): nat
  {
    match op
    case WrapI64 => Cut(W32, Sgn(W64, a))
    case ExtendS => Cut(W64, Sgn(W32, a))
    case ExtendU => a
  }

  // ----- the standard -----

  /** None is a trap. */
  function StdBin(w: Width, op: BinOp, i: nat, j: nat): Option<int>
    requires Fits(w, i) && Fits(w, j)
  {
    match op
    case Add => Some((i + j) % Modulus(w))
    case Sub => Some((i - j) % Modulus(w))
    case Mul => Some((i * j) % Modulus(w))
    case DivS | DivU | RemS | RemU => if j == 0 then None else StdDiv(w, op, i, j)
    case And | Or | Xor => Some(BitOp(op, i, j))
    case Shl | ShrS | ShrU | Rotl | Rotr => Some(StdShift(w, op, i, j % Bits(w)))
  }

  function StdDiv(w: Width, op: BinOp, i: nat, j: nat): Option<int>
    requires Fits(w, i) && 0 < j && Fits(w, j)
  {
    var q := TruncDiv(Sgn(w, i), Sgn(w, j));
    if op == DivU then Some(i / j)
    else if op == RemU then Some(i - j * (i / j))
    else if op == RemS then Some((Sgn(w, i) - Sgn(w, j) * q) % Modulus(w))
    else if q == Modulus(w) / 2 then None
    else Some(q % Modulus(w))
  }

  function StdShift(w: Width, op: BinOp, i: nat, k: nat): int
    requires k < Bits(w)
  {
    if op == Shl then Leb.Shl(i, k) % Modulus(w)
    else if op == ShrU then i / Pow2(k)
    else if op == ShrS then (Sgn(w, i) / Pow2(k)) % Modulus(w)
    else if op == Rotl then Rotate(w, i, k)
    else Rotate(w, i, Bits(w) - k)
  }

  /** Left rotation by k: what leaves at the top comes back at the bottom. */
  function Rotate(w: Width, i: nat, k: nat): int
    requires k <= Bits(w)
  {
    Leb.Shl(i, k) % Modulus(w) + Leb.Shl(i, k) / Modulus(w)
  }

  function StdRel(w: Width, op: RelOp, i: nat, j: nat): bool
  {
    match op
    case Eq => i == j
    case Ne => i != j
    case LtS => Sgn(w, i) < Sgn(w, j)
    case LtU => i < j
    case GtS => Sgn(w, i) > Sgn(w, j)
    case GtU => i > j
    case LeS => Sgn(w, i) <= Sgn(w, j)
    case LeU => i <= j
    case GeS => Sgn(w, i) >= Sgn(w, j)
    case GeU => i >= j
  }

  function StdUn(w: Width, op: UnOp, i: nat): nat
  {
    match op
    case Eqz => if i == 0 then 1 else 0
    case Clz => LeadingZeros(i, Bits(w))
    case Ctz => TrailingZeros(i, Bits(w))
    case Popcnt => Ones(i)
  }

  function StdCvt(op: CvtOp, i: nat): nat
  {
    match op
    case WrapI64 => i % Modulus(W32)
    case ExtendU => i
    case ExtendS => Sgn(W32, i) % Modulus(W64)
  }

  // ----- where they agree -----

  /** The operand pairs of a comparison on which the interpreter answers wrongly. */
  predicate RelDeviates(w: Width, op: RelOp, i: nat, j: nat)
  {
    (op == GtS || op == GeS) && (i >= Modulus(w) / 2) != (j >= Modulus(w) / 2)
  }

  /** The one operand pair on which the interpreter's remainder is not the standard's. */
  predicate BinDeviates(w: Width, op: BinOp, i: nat, j: nat)
  {
    op == RemS && i == Modulus(w) / 2 && j == Modulus(w) - 1
  }

  /** Comparisons are right exactly outside the deviating pairs: gt_s and ge_s on mixed signs. */
  lemma RelAgrees(w: Width, op: RelOp, i: nat, j: nat)
    requires Fits(w, i) && Fits(w, j)
    ensures CRel(w, op, i, j) == StdRel(w, op, i, j) <==> !RelDeviates(w, op, i, j)
  {
  }

  lemma {:induction false} ShrIsDiv(x: nat, n: nat)
    ensures Shr(x, n) == x / Pow2(n)
  {
    if n > 0 {
      ShrIsDiv(x, n - 1);
      DivTwice(x, Pow2(n - 1));
    }
  }

  lemma {:induction false} ShlScales(x: int, n: nat)
    ensures Leb.Shl(x, n) == x * Pow2(n)
  {
    if n > 0 { ShlScales(x, n - 1); ScaleTwo(x, Pow2(n - 1)); }
  }

  lemma {:induction false} Pow2Sum(a: nat, b: nat)
    ensures Pow2(a + b) == Pow2(a) * Pow2(b)
    decreases b
  {
    if b > 0 { Pow2Sum(a, b - 1); ScaleTwo(Pow2(a), Pow2(b - 1)); }
  }

  /** The modulus is 2^n times 2^(Bits(w) - n). */
  lemma ModulusSplits(w: Width, n: nat)
    requires n <= Bits(w)
    ensures Modulus(w) == Pow2(n) * Pow2(Bits(w) - n) && Modulus(w) == Pow2(Bits(w)) > 0
  {
    Pow2Sum(n, Bits(w) - n);
    ShlBits();
    ShlScales(1, Bits(w));
  }

  lemma CutIsMod(w: Width, x: int)
    ensures Cut(w, x) == x % Modulus(w)
  {
  }

  // ----- integer facts -----

  lemma ScaleTwo(a: int, b: int)
    ensures 2 * (a * b) == a * (2 * b)
  {
  }

  lemma NonNegative(a: int, b: int)
    requires a >= 0 && b >= 0
    ensures a * b >= 0
  {
  }

  lemma DivTwice(x: nat, p: nat)
    requires p > 0
    ensures (x / p) / 2 == x / (2 * p)
  {
    var q, r := x / p, x % p;
    assert x == q * p + r;
    assert q == 2 * (q / 2) + q % 2;
    assert q * p == (q / 2) * (2 * p) + (q % 2) * p;
    ModUnique(x, 2 * p, q / 2, (q % 2) * p + r);
  }

  lemma AtLeastFactor(p: int, q: int)
    requires p >= 1 && q >= 1
    ensures q <= p * q
  {
    NonNegative(p - 1, q);
    assert p * q == (p - 1) * q + q;
  }

  lemma DivSmaller(i: nat, j: nat)
    requires j > 0
    ensures 0 <= i / j <= i
  {
    var d := i / j;
    assert i == j * d + i % j;
    assert j * d == -((-d - 1) * j) - j;
    if d < 0 { NonNegative(-d - 1, j); }
    AtLeastFactorOrZero(j, d);
  }

  lemma AtLeastFactorOrZero(j: int, d: int)
    requires j >= 1 && d >= 0
    ensures d <= j * d
  {
    NonNegative(j - 1, d);
    assert j * d == (j - 1) * d + d;
  }

  /** A number below p * q around the bit at q: its high part is below p, its low part scales within p * q. */
  lemma SplitAt(b: nat, p: int, q: int)
    requires p >= 1 && q >= 1 && b < p * q
    ensures 0 <= b / q < p
    ensures 0 <= (b % q) * p < p * q
    ensures b * p == (b / q) * (p * q) + (b % q) * p
    ensures (b * p) / (p * q) == b / q && (b * p) % (p * q) == (b % q) * p
  {
    var hi, lo := b / q, b % q;
    assert b == hi * q + lo;
    DivSmaller(b, q);
    assert hi * q == p * q + (hi - p) * q;
    if hi >= p { NonNegative(hi - p, q); }
    NonNegative(lo, p);
    NonNegative(q - lo - 1, p);
    assert p * q == lo * p + (q - lo - 1) * p + p;
    assert b * p == hi * (p * q) + lo * p;
    ModUnique(b * p, p * q, hi, lo * p);
  }

  lemma DivShift(b: int, p: int, q: int)
    requires p > 0
    ensures (b - p * q) / p == b / p - q
  {
    assert b == (b / p) * p + b % p;
    assert b - p * q == (b / p - q) * p + b % p;
    ModUnique(b - p * q, p, b / p - q, b % p);
  }

  /** All ones times q keeps, modulo p * q, the ones at and above q. */
  lemma OnesTimes(p: int, q: int)
    requires p >= 1 && q >= 1
    ensures ((p * q - 1) * q) % (p * q) == (p - 1) * q
  {
    AtLeastFactor(p, q);
    assert (p - 1) * q == p * q - q;
    assert (p * q - 1) * q == (q - 1) * (p * q) + (p - 1) * q;
    ModUnique((p * q - 1) * q, p * q, q - 1, (p - 1) * q);
  }

  // ----- or -----

  lemma OrHalves(a: nat, b: nat)
    ensures BitOr(a, b) == 2 * BitOr(a / 2, b / 2) + (if a % 2 == 1 || b % 2 == 1 then 1 else 0)
  {
  }

  lemma {:induction false} OrSelf(b: nat)
    ensures BitOr(b, b) == b
  {
    if b > 0 { OrSelf(b / 2); }
  }

  lemma {:induction false} OrCommutes(a: nat, b: nat)
    ensures BitOr(a, b) == BitOr(b, a)
    decreases a + b
  {
    if a != 0 && b != 0 { OrCommutes(a / 2, b / 2); }
  }

  /** Or-ing a number below 2^n into a multiple of 2^n adds it. */
  lemma {:induction false} OrDisjoint(x: nat, y: nat, n: nat)
    requires y < Pow2(n)
    ensures BitOr(Leb.Shl(x, n), y) == Leb.Shl(x, n) + y
  {
    if n > 0 {
      OrDisjoint(x, y / 2, n - 1);
      OrHalves(Leb.Shl(x, n), y);
    }
  }

  // ----- shifts and rotations -----

  /** Or-ing the two halves of a rotation together gives the rotation. */
  lemma RotateByOr(w: Width, b: nat, n: nat)
    requires Fits(w, b) && n < Bits(w)
    ensures BitOr(Cut(w, Leb.Shl(b, n)), Shr(b, (Bits(w) - n) % Bits(w))) == Rotate(w, b, n)
  {
    hide Leb.Shl, Shr, Pow2, BitOr;
    if n == 0 {
      RotateNone(w, b);
    } else {
      var p, q := Pow2(n), Pow2(Bits(w) - n);
      assert (Bits(w) - n) % Bits(w) == Bits(w) - n;
      ModulusSplits(w, n);
      SplitAt(b, p, q);
      ShlScales(b, n);
      ShlScales(b % q, n);
      ShrIsDiv(b, Bits(w) - n);
      CutIsMod(w, Leb.Shl(b, n));
      OrDisjoint(b % q, b / q, n);
    }
  }

  lemma RotateNone(w: Width, b: nat)
    requires Fits(w, b)
    ensures BitOr(Cut(w, Leb.Shl(b, 0)), Shr(b, Bits(w) % Bits(w))) == Rotate(w, b, 0) == b
  {
    OrSelf(b);
    ModUnique(b, Modulus(w), 0, b);
    CutIsMod(w, b);
  }

  lemma FullTurn(w: Width, b: nat)
    requires Fits(w, b)
    ensures Rotate(w, b, Bits(w)) == b
  {
    hide Leb.Shl, Pow2;
    ShlScales(b, Bits(w));
    ModulusSplits(w, Bits(w));
    ModUnique(b * Modulus(w), Modulus(w), b, 0);
  }

  lemma RotateRightByOr(w: Width, b: nat, n: nat)
    requires Fits(w, b) && n < Bits(w)
    ensures BitOr(Shr(b, n), Cut(w, Leb.Shl(b, (Bits(w) - n) % Bits(w)))) == Rotate(w, b, Bits(w) - n)
  {
    hide Leb.Shl, Shr, BitOr, Rotate, Cut;
    var k := (Bits(w) - n) % Bits(w);
    OrCommutes(Shr(b, n), Cut(w, Leb.Shl(b, k)));
    RotateByOr(w, b, k);
    if n == 0 {
      RotateNone(w, b);
      FullTurn(w, b);
    } else {
      assert k == Bits(w) - n && (Bits(w) - k) % Bits(w) == n;
    }
  }

  /** Or-ing ones above the shifted pattern of a negative number is the arithmetic shift. */
  lemma ShrSByOr(w: Width, b: nat, n: nat)
    requires Fits(w, b) && n < Bits(w)
    ensures CShrS(w, b, n) == (Sgn(w, b) / Pow2(n)) % Modulus(w)
  {
    hide Leb.Shl, Shr, BitOr, Cut, Pow2;
    var m, p, q := Modulus(w), Pow2(n), Pow2(Bits(w) - n);
    ModulusSplits(w, n);
    ShrIsDiv(b, n);
    DivSmaller(b, p);
    if n == 0 {
      ShiftByNothing(w, b);
    } else if b < m / 2 {
      OrHalvesZero(b / p);
      ModUnique(b / p, m, 0, b / p);
    } else {
      ArithmeticShift(b, p, q);
      ShlScales(m - 1, Bits(w) - n);
      ShlScales(p - 1, Bits(w) - n);
      CutIsMod(w, (m - 1) * q);
      OrDisjoint(p - 1, b / p, Bits(w) - n);
      OrCommutes(b / p, Leb.Shl(p - 1, Bits(w) - n));
    }
  }

  lemma ShiftByNothing(w: Width, b: nat)
    requires Fits(w, b)
    ensures (Sgn(w, b) / Pow2(0)) % Modulus(w) == b
  {
    assert Pow2(0) == 1;
    var m := Modulus(w);
    if b < m / 2 { ModUnique(b, m, 0, b); } else { ModUnique(b - m, m, -1, b); }
  }

  /** The quotient of a negative pattern by p: the pattern's own quotient with p - 1 ones, from q on, added. */
  lemma ArithmeticShift(b: nat, p: int, q: int)
    requires p >= 1 && q >= 1 && b < p * q
    ensures 0 <= b / p < q
    ensures ((p * q - 1) * q) % (p * q) == (p - 1) * q
    ensures ((b - p * q) / p) % (p * q) == (p - 1) * q + b / p
  {
    OnesTimes(p, q);
    DivShift(b, p, q);
    AtLeastFactor(p, q);
    assert q * p == p * q;
    SplitAt(b, q, p);
    assert (p - 1) * q == p * q - q;
    ModUnique(b / p - q, p * q, -1, (p - 1) * q + b / p);
  }

  lemma OrHalvesZero(x: nat)
    ensures BitOr(x, 0) == x
  {
  }

  // ----- agreement -----

  /** Binary operators are right exactly outside the one deviating remainder. */
  lemma BinAgrees(w: Width, op: BinOp, i: nat, j: nat)
    requires Fits(w, i) && Fits(w, j)
    ensures CBin(w, op, i, j) == StdBin(w, op, i, j) <==> !BinDeviates(w, op, i, j)
  {
    hide BitOp, CDiv, StdDiv, CShift, StdShift, Cut, Modulus;
    match op
    case Add => CutIsMod(w, i + j);
    case Sub => CutIsMod(w, i - j);
    case Mul => CutIsMod(w, i * j);
    case DivS | DivU | RemS | RemU => if j != 0 { DivAgrees(w, op, i, j); } else { NonZeroDivisor(w); }
    case And | Or | Xor =>
    case Shl | ShrS | ShrU | Rotl | Rotr => ShiftAgrees(w, op, i, j % Bits(w));
  }

  lemma NonZeroDivisor(w: Width)
    ensures Modulus(w) > 1
  {
  }

  lemma ShiftAgrees(w: Width, op: BinOp, i: nat, k: nat)
    requires Fits(w, i) && k < Bits(w)
    requires op == Shl || op == ShrS || op == ShrU || op == Rotl || op == Rotr
    ensures CShift(w, op, i, k) == StdShift(w, op, i, k)
  {
    hide Leb.Shl, Shr, BitOr, Rotate, Pow2, CShrS, Cut, Modulus, Sgn;
    if op == Shl { CutIsMod(w, Leb.Shl(i, k)); }
    else if op == ShrU { ShrIsDiv(i, k); }
    else if op == ShrS { ShrSByOr(w, i, k); }
    else if op == Rotl { RotateByOr(w, i, k); }
    else { RotateRightByOr(w, i, k); }
  }

  lemma DivAgrees(w: Width, op: BinOp, i: nat, j: nat)
    requires Fits(w, i) && 0 < j && Fits(w, j)
    requires op == DivS || op == DivU || op == RemS || op == RemU
    ensures CDiv(w, op, i, j) == StdDiv(w, op, i, j) <==> !BinDeviates(w, op, i, j)
  {
    if op == DivS { DivSAgrees(w, i, j); }
    else if op == RemS { RemSAgrees(w, i, j); }
    else { assert i == j * (i / j) + i % j; }
  }

  lemma DivSAgrees(w: Width, i: nat, j: nat)
    requires Fits(w, i) && 0 < j && Fits(w, j)
    ensures CDiv(w, DivS, i, j) == StdDiv(w, DivS, i, j)
  {
    hide TruncDiv;
    var a, b, h := Sgn(w, i), Sgn(w, j), Modulus(w) / 2;
    CutIsMod(w, TruncDiv(a, b));
    if a == -h && b == -1 { NegatedMinimum(a); } else { QuotientBelow(a, b, h); }
  }

  lemma RemSAgrees(w: Width, i: nat, j: nat)
    requires Fits(w, i) && 0 < j && Fits(w, j)
    ensures CDiv(w, RemS, i, j) == StdDiv(w, RemS, i, j) <==> !BinDeviates(w, RemS, i, j)
  {
    hide TruncDiv;
    CutIsMod(w, Sgn(w, i) - Sgn(w, j) * TruncDiv(Sgn(w, i), Sgn(w, j)));
  }

  lemma NegatedMinimum(a: int)
    requires a < 0
    ensures TruncDiv(a, -1) == -a
  {
  }

  lemma QuotientBelow(a: int, b: int, h: int)
    requires h > 1 && -h <= a < h && b != 0 && !(a == -h && b == -1)
    ensures TruncDiv(a, b) < h
  {
    var x := if a >= 0 then a else -a;
    if b > 0 {
      DivSmaller(x, b);
    } else {
      NegDivisor(x, b);
      DivSmaller(x, -b);
      if b != -1 { HalfOrLess(x, -b); }
    }
  }

  lemma HalfOrLess(x: nat, y: int)
    requires y >= 2
    ensures 2 * (x / y) <= x
  {
    DivSmaller(x, y);
    assert x == y * (x / y) + x % y;
    NonNegative(y - 2, x / y);
    assert y * (x / y) == (y - 2) * (x / y) + 2 * (x / y);
  }

  lemma NegDivisor(x: nat, b: int)
    requires b < 0
    ensures x / b == -(x / (-b))
  {
    assert x == b * (x / b) + x % b;
    assert b * (x / b) == (-(x / b)) * (-b);
    ModUnique(x, -b, -(x / b), x % b);
  }

  lemma {:induction false} ZerosOfZero(bits: nat)
    ensures LeadingZeros(0, bits) == bits && TrailingZeros(0, bits) == bits
  {
    if bits > 0 { ZerosOfZero(bits - 1); }
  }

  /** Counts, tests and conversions always agree. */
  lemma UnAndCvtAgree(w: Width, op: UnOp, c: CvtOp, i: nat)
    ensures Fits(w, i) ==> CUn(w, op, i) == StdUn(w, op, i)
    ensures Fits(if c == WrapI64 then W64 else W32, i) ==> CCvt(c, i) == StdCvt(c, i)
  {
    ZerosOfZero(Bits(w));
  }

  // ----- results fit -----

  lemma {:induction false} BitsBelow(a: nat, b: nat, n: nat)
    requires a < Pow2(n) && b < Pow2(n)
    ensures BitAnd(a, b) < Pow2(n) && BitOr(a, b) < Pow2(n) && BitXor(a, b) < Pow2(n)
  {
    if n > 0 { BitsBelow(a / 2, b / 2, n - 1); }
  }

  /** The standard's results are w-bit patterns. */
  lemma StdBinFits(w: Width, op: BinOp, i: nat, j: nat)
    requires Fits(w, i) && Fits(w, j)
    ensures var r := StdBin(w, op, i, j); r.Some? ==> 0 <= r.value && Fits(w, r.value)
  {
    hide BitOp, StdDiv, StdShift, Modulus, Pow2;
    ModulusSplits(w, 0);
    match op
    case Add => ModInside(i + j, Modulus(w));
    case Sub => ModInside(i - j, Modulus(w));
    case Mul => ModInside(i * j, Modulus(w));
    case DivS | DivU | RemS | RemU => if j != 0 { StdDivFits(w, op, i, j); }
    case And | Or | Xor => BitOpFits(w, op, i, j);
    case Shl | ShrS | ShrU | Rotl | Rotr => StdShiftFits(w, op, i, j % Bits(w));
  }

  lemma BitOpFits(w: Width, op: BinOp, i: nat, j: nat)
    requires Fits(w, i) && Fits(w, j)
    ensures Fits(w, BitOp(op, i, j))
  {
    hide BitAnd, BitOr, BitXor, Pow2, Modulus;
    ModulusSplits(w, 0);
    BitsBelow(i, j, Bits(w));
  }

  lemma StdShiftFits(w: Width, op: BinOp, i: nat, k: nat)
    requires Fits(w, i) && k < Bits(w)
    ensures 0 <= StdShift(w, op, i, k) && Fits(w, StdShift(w, op, i, k))
  {
    hide Leb.Shl, Rotate, Pow2, Modulus, Sgn;
    ModulusSplits(w, 0);
    ModInside(Leb.Shl(i, k), Modulus(w));
    ModInside(Sgn(w, i) / Pow2(k), Modulus(w));
    DivSmaller(i, Pow2(k));
    RotateFits(w, i, k);
    RotateFits(w, i, Bits(w) - k);
  }

  lemma StdDivFits(w: Width, op: BinOp, i: nat, j: nat)
    requires Fits(w, i) && 0 < j && Fits(w, j)
    ensures var r := StdDiv(w, op, i, j); r.Some? ==> 0 <= r.value && Fits(w, r.value)
  {
    hide TruncDiv;
    DivSmaller(i, j);
    RemInside(i, j);
  }

  lemma ModInside(x: int, m: int)
    requires m > 0
    ensures 0 <= x % m < m
  {
  }

  lemma RemInside(i: nat, j: nat)
    requires j > 0
    ensures 0 <= i - j * (i / j) <= i
  {
    assert i == j * (i / j) + i % j;
    DivSmaller(i, j);
    NonNegative(j, i / j);
  }

  lemma RotateFits(w: Width, i: nat, k: nat)
    requires Fits(w, i) && k <= Bits(w)
    ensures 0 <= Rotate(w, i, k) && Fits(w, Rotate(w, i, k))
  {
    hide Leb.Shl, Shr, BitOr, Pow2, Rotate;
    if k < Bits(w) {
      var s := (Bits(w) - k) % Bits(w);
      RotateByOr(w, i, k);
      ShrIsDiv(i, s);
      DivSmaller(i, Pow2(s));
      ModulusSplits(w, 0);
      BitsBelow(Cut(w, Leb.Shl(i, k)), Shr(i, s), Bits(w));
    } else {
      FullTurn(w, i);
    }
  }

  // ----- what the shared operations are -----

  // Both sides above call the functions below on bits and quotients; here each is tied to what it means.

  /** Bit k of a number. */
  function Bit(x: nat, k: nat): nat { x / Pow2(k) % 2 }

  lemma BitStep(x: nat, k: nat)
    ensures Bit(x, 0) == x % 2 && Bit(x, k + 1) == Bit(x / 2, k)
  {
    hide Pow2;
    assert Pow2(0) == 1 && Pow2(k + 1) == 2 * Pow2(k) by { PowStep(k); }
    DivHalf(x, Pow2(k));
  }

  lemma PowStep(k: nat)
    ensures Pow2(0) == 1 && Pow2(k + 1) == 2 * Pow2(k)
  {
  }

  lemma DivHalf(x: nat, p: nat)
    requires p > 0
    ensures (x / 2) / p == x / (2 * p)
  {
    var h := x / 2;
    var q, r := h / p, h % p;
    assert h == q * p + r && x == 2 * h + x % 2;
    assert x == q * (2 * p) + (2 * r + x % 2);
    ModUnique(x, 2 * p, q, 2 * r + x % 2);
  }

  /** Bit k of a result of and, or or xor, from the operands' bits k. */
  function BitResult(op: BinOp, x: nat, y: nat): nat
  {
    if op == And then (if x == 1 && y == 1 then 1 else 0)
    else if op == Or then (if x == 1 || y == 1 then 1 else 0)
    else if x != y then 1 else 0
  }

  lemma {:induction false} BitOpBits(op: BinOp, a: nat, b: nat, k: nat)
    ensures Bit(BitOp(op, a, b), k) == BitResult(op, Bit(a, k), Bit(b, k))
    decreases k
  {
    hide Bit, Pow2;
    var r := BitOp(op, a, b);
    BitOpHalf(op, a, b);
    BitStep(a, 0); BitStep(b, 0); BitStep(r, 0);
    if k > 0 {
      BitStep(a, k - 1); BitStep(b, k - 1); BitStep(r, k - 1);
      BitOpBits(op, a / 2, b / 2, k - 1);
    }
  }

  lemma BitOpHalf(op: BinOp, a: nat, b: nat)
    ensures BitOp(op, a, b) / 2 == BitOp(op, a / 2, b / 2)
    ensures BitOp(op, a, b) % 2 == BitResult(op, a % 2, b % 2)
  {
    hide BitAnd, BitOr, BitXor;
    OrHalves(a, b);
    AndHalves(a, b);
    XorHalves(a, b);
  }

  lemma AndHalves(a: nat, b: nat)
    ensures BitAnd(a, b) == 2 * BitAnd(a / 2, b / 2) + (if a % 2 == 1 && b % 2 == 1 then 1 else 0)
  {
  }

  lemma XorHalves(a: nat, b: nat)
    ensures BitXor(a, b) == 2 * BitXor(a / 2, b / 2) + (if a % 2 != b % 2 then 1 else 0)
  {
  }

  /** The interpreter's and, or and xor are those of the operands' bits, one by one. */
  lemma BitwiseIs(w: Width, op: BinOp, i: nat, j: nat, k: nat)
    requires Fits(w, i) && Fits(w, j) && (op == And || op == Or || op == Xor)
    ensures CBin(w, op, i, j).Some? && Bit(CBin(w, op, i, j).value, k) == BitResult(op, Bit(i, k), Bit(j, k))
  {
    hide Bit, BitResult, BitOp;
    BitOpBits(op, i, j, k);
  }

  /** The signed reading is the number of that pattern within the signed range. */
  lemma SgnIs(w: Width, x: nat)
    requires Fits(w, x)
    ensures -(Pow2(Bits(w)) / 2) <= Sgn(w, x) < Pow2(Bits(w)) / 2 && Sgn(w, x) % Pow2(Bits(w)) == x
  {
    hide Pow2;
    ModulusSplits(w, 0);
    if Sgn(w, x) >= 0 { ModUnique(Sgn(w, x), Modulus(w), 0, x); } else { ModUnique(Sgn(w, x), Modulus(w), -1, x); }
  }

  /** Truncating division: the remainder is smaller than the divisor and has the dividend's sign. */
  lemma TruncDivIs(a: int, b: int)
    requires b != 0
    ensures var r := a - b * TruncDiv(a, b);
      && -(if b > 0 then b else -b) < r < (if b > 0 then b else -b) && (a >= 0 ==> r >= 0) && (a <= 0 ==> r <= 0)
  {
    if a >= 0 {
      assert a == b * (a / b) + a % b;
    } else {
      assert -a == b * ((-a) / b) + (-a) % b;
      assert b * (-((-a) / b)) == -(b * ((-a) / b));
    }
  }

  /** clz: the number of zeros above the highest one. */
  lemma {:induction false} LeadingZerosIs(x: nat, bits: nat)
    requires 0 < x < Pow2(bits)
    ensures var z := LeadingZeros(x, bits); z < bits && Pow2(bits - 1 - z) <= x < Pow2(bits - z)
  {
    if x < Pow2(bits - 1) { LeadingZerosIs(x, bits - 1); }
  }

  /** ctz: the number of zeros below the lowest one. */
  lemma {:induction false} TrailingZerosIs(x: nat, bits: nat)
    requires 0 < x < Pow2(bits)
    ensures var z := TrailingZeros(x, bits); z < bits && Bit(x, z) == 1 && forall k :: 0 <= k < z ==> Bit(x, k) == 0
  {
    hide Bit;
    BitStep(x, 0);
    if x % 2 == 0 {
      TrailingZerosIs(x / 2, bits - 1);
      var z := TrailingZeros(x / 2, bits - 1);
      BitStep(x, z);
      forall k | 0 <= k < z + 1 ensures Bit(x, k) == 0 { if k > 0 { BitStep(x, k - 1); } }
    }
  }

  /** The number of ones among bits k to k + n. */
  function OnesAmong(x: nat, k: nat, n: nat): nat
    decreases n
  {
    if n == 0 then 0 else Bit(x, k) + OnesAmong(x, k + 1, n - 1)
  }

  lemma {:induction false} OnesShift(x: nat, k: nat, n: nat)
    ensures OnesAmong(x, k + 1, n) == OnesAmong(x / 2, k, n)
    decreases n
  {
    hide Bit;
    if n > 0 { BitStep(x, k); OnesShift(x, k + 1, n - 1); }
  }

  /** popcnt. */
  lemma {:induction false} OnesIs(x: nat, n: nat)
    requires x < Pow2(n)
    ensures Ones(x) == OnesAmong(x, 0, n)
  {
    hide Bit;
    if n > 0 {
      BitStep(x, 0);
      OnesIs(x / 2, n - 1);
      OnesShift(x, 0, n - 1);
    }
  }

  /** The interpreter's counts are the standard's in these terms: of the operand's bits. */
  lemma CountsAre(w: Width, a: nat)
    requires Fits(w, a)
    ensures CUn(w, Popcnt, a) == OnesAmong(a, 0, Bits(w))
    ensures a == 0 ==> CUn(w, Clz, a) == CUn(w, Ctz, a) == Bits(w)
    ensures a > 0 ==> var z := CUn(w, Clz, a); z < Bits(w) && Pow2(Bits(w) - 1 - z) <= a < Pow2(Bits(w) - z)
    ensures a > 0 ==> var z := CUn(w, Ctz, a); z < Bits(w) && Bit(a, z) == 1 && forall k :: 0 <= k < z ==> Bit(a, k) == 0
  {
    hide Bit, Pow2, OnesAmong, LeadingZeros, TrailingZeros, Ones;
    ModulusSplits(w, 0);
    OnesIs(a, Bits(w));
    if a > 0 { LeadingZerosIs(a, Bits(w)); TrailingZerosIs(a, Bits(w)); }
  }

  /** Signed division and remainder, where they are right: quotient toward zero, remainder of the dividend's sign. */
  lemma DivisionIs(w: Width, i: nat, j: nat)
    requires Fits(w, i) && 0 < j && Fits(w, j) && !(Sgn(w, i) == -(Modulus(w) / 2) && Sgn(w, j) == -1)
    ensures CBin(w, DivS, i, j).Some? && CBin(w, RemS, i, j).Some?
    ensures var a, b, q, r := Sgn(w, i), Sgn(w, j), Sgn(w, CBin(w, DivS, i, j).value), Sgn(w, CBin(w, RemS, i, j).value);
      a == b * q + r && -(if b > 0 then b else -b) < r < (if b > 0 then b else -b) && (a >= 0 ==> r >= 0) && (a <= 0 ==> r <= 0)
  {
    hide TruncDiv, Sgn, Cut;
    var a, b, h := Sgn(w, i), Sgn(w, j), Modulus(w) / 2;
    InRangeSgn(w, i);
    InRangeSgn(w, j);
    var q := TruncDiv(a, b);
    TruncDivIs(a, b);
    QuotientRange(a, b, h);
    SgnOfCut(w, q);
    SgnOfCut(w, a - b * q);
  }

  lemma InRangeSgn(w: Width, x: nat)
    requires Fits(w, x)
    ensures -(Modulus(w) / 2) <= Sgn(w, x) < Modulus(w) / 2 && (Sgn(w, x) == 0 <==> x == 0)
  {
  }

  lemma SgnOfCut(w: Width, v: int)
    requires -(Modulus(w) / 2) <= v < Modulus(w) / 2
    ensures Sgn(w, Cut(w, v)) == v
  {
  }

  lemma QuotientRange(a: int, b: int, h: int)
    requires h > 1 && -h <= a < h && b != 0 && !(a == -h && b == -1)
    ensures -h <= TruncDiv(a, b) < h
  {
    QuotientBelow(a, b, h);
    var x := if a >= 0 then a else -a;
    if b > 0 { DivSmaller(x, b); } else { NegDivisor(x, b); DivSmaller(x, -b); }
  }
}
