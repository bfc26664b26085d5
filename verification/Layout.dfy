/** Typed values as bytes: the operand stack, and locals packed at the offsets the loader computes. */
module Layout {
  import opened Bytes
  import opened Leb
  import opened Isa
  import opened Alu
  import opened Machine
  import opened Wasm

  function ValBytes(v: Val): (r: seq<byte>)
    ensures |r| == Size(v.w)
  {
    Le(v.n, Size(v.w))
  }

  /** Values in a row, the last one on top. */
  function BytesOf(vs: seq<Val>): seq<byte>
  {
    if vs == [] then [] else BytesOf(vs[..|vs| - 1]) + ValBytes(vs[|vs| - 1])
  }

  function WidthsSize(ts: seq<Width>): nat
  {
    if ts == [] then 0 else WidthsSize(ts[..|ts| - 1]) + Size(ts[|ts| - 1])
  }

  function TypeByte(w: Width): byte { if w == W32 then TYPE_I32 else TYPE_I64 }

  function TypeBytes(ts: seq<Width>): (r: seq<byte>)
    ensures |r| == |ts|
  {
    seq(|ts|, i requires 0 <= i < |ts| => TypeByte(ts[i]))
  }

  /** Each local's byte offset, then the total: the prefix sums of the type sizes. */
  function OffsetsOf(ts: seq<Width>): (r: seq<nat>)
    ensures |r| == |ts| + 1
  {
    seq(|ts| + 1, i requires 0 <= i <= |ts| => WidthsSize(ts[..i]))
  }

  lemma {:induction false} BytesOfLength(vs: seq<Val>)
    ensures |BytesOf(vs)| == WidthsSize(Types(vs))
  {
    if vs != [] {
      assert Types(vs)[..|vs| - 1] == Types(vs[..|vs| - 1]);
      BytesOfLength(vs[..|vs| - 1]);
    }
  }

  lemma {:induction false} BytesOfConcat(a: seq<Val>, b: seq<Val>)
    ensures BytesOf(a + b) == BytesOf(a) + BytesOf(b)
    decreases b
  {
    if b == [] {
      assert a + b == a;
    } else {
      assert (a + b)[..|a + b| - 1] == a + b[..|b| - 1];
      BytesOfConcat(a, b[..|b| - 1]);
    }
  }

  lemma BytesOfOne(v: Val)
    ensures BytesOf([v]) == ValBytes(v)
  {
    assert [v][..0] == [];
    assert BytesOf([]) == [];
  }

  lemma BytesOfTwo(a: Val, b: Val)
    ensures BytesOf([a, b]) == ValBytes(a) + ValBytes(b)
  {
    assert [a, b][..1] == [a];
    BytesOfOne(a);
  }

  lemma BytesOfThree(a: Val, b: Val, c: Val)
    ensures BytesOf([a, b, c]) == ValBytes(a) + ValBytes(b) + ValBytes(c)
  {
    assert [a, b, c][..2] == [a, b];
    BytesOfTwo(a, b);
  }

  lemma {:induction false} WidthsSizeConcat(a: seq<Width>, b: seq<Width>)
    ensures WidthsSize(a + b) == WidthsSize(a) + WidthsSize(b)
    decreases b
  {
    if b == [] {
      assert a + b == a;
    } else {
      assert (a + b)[..|a + b| - 1] == a + b[..|b| - 1];
      WidthsSizeConcat(a, b[..|b| - 1]);
    }
  }

  lemma {:induction false} TypesSizeOfBytes(ts: seq<Width>)
    ensures TypesSize(TypeBytes(ts)) == WidthsSize(ts)
    decreases |ts|
  {
    if ts != [] {
      assert TypeBytes(ts)[1..] == TypeBytes(ts[1..]);
      assert ts == [ts[0]] + ts[1..];
      WidthsSizeConcat([ts[0]], ts[1..]);
      assert WidthsSize([ts[0]]) == Size(ts[0]) by { assert [ts[0]][..0] == []; assert WidthsSize([]) == 0; }
      TypesSizeOfBytes(ts[1..]);
    }
  }

  // ----- the operand stack -----

  /** Popping what was pushed. */
  lemma PopTop(x: seq<byte>, v: Val)
    requires Fit(v)
    ensures Top(x + ValBytes(v), v.w) == v.n && Rest(x + ValBytes(v), Size(v.w)) == x
  {
    var s := x + ValBytes(v);
    assert s[|s| - Size(v.w)..] == ValBytes(v);
    LeRoundTrip(v.n);
    FitsIsWrapped(v);
  }

  lemma FitsIsWrapped(v: Val)
    requires Fit(v)
    ensures v.w == W32 ==> Wrap32(v.n) == v.n
    ensures v.w == W64 ==> Wrap64(v.n) == v.n
  {
  }

  lemma PopTwo(x: seq<byte>, a: Val, b: Val)
    requires Fit(a) && Fit(b)
    ensures var s := x + BytesOf([a, b]);
      && |s| == |x| + Size(a.w) + Size(b.w)
      && Top(s, b.w) == b.n && Rest(s, Size(b.w)) == x + ValBytes(a)
      && Top(Rest(s, Size(b.w)), a.w) == a.n && Rest(Rest(s, Size(b.w)), Size(a.w)) == x
  {
    BytesOfTwo(a, b);
    assert x + BytesOf([a, b]) == (x + ValBytes(a)) + ValBytes(b);
    PopTop(x + ValBytes(a), b);
    PopTop(x, a);
  }

  // ----- locals -----

  lemma SplitAtLocal(vs: seq<Val>, i: nat)
    requires i < |vs|
    ensures BytesOf(vs) == BytesOf(vs[..i]) + ValBytes(vs[i]) + BytesOf(vs[i + 1..])
    ensures |BytesOf(vs[..i])| == OffsetsOf(Types(vs))[i]
    ensures OffsetsOf(Types(vs))[i + 1] == OffsetsOf(Types(vs))[i] + Size(vs[i].w) <= |BytesOf(vs)|
  {
    assert vs == (vs[..i] + [vs[i]]) + vs[i + 1..];
    BytesOfConcat(vs[..i] + [vs[i]], vs[i + 1..]);
    BytesOfConcat(vs[..i], [vs[i]]);
    BytesOfOne(vs[i]);
    BytesOfLength(vs[..i]);
    assert Types(vs)[..i] == Types(vs[..i]);
    assert Types(vs)[..i + 1] == Types(vs)[..i] + [vs[i].w];
    assert (Types(vs)[..i] + [vs[i].w])[..i] == Types(vs)[..i];
  }

  /** Slots: local i's bytes lie at its offset; its neighbours start where it ends. */
  lemma ReadSlot(vs: seq<Val>, i: nat)
    requires i < |vs|
    ensures var o := OffsetsOf(Types(vs));
            o[i] <= o[i + 1] <= |BytesOf(vs)| && BytesOf(vs)[o[i]..o[i + 1]] == ValBytes(vs[i])
  {
    SplitAtLocal(vs, i);
  }

  /** Overwriting a slot is a map update: every other local keeps its bytes. */
  lemma WriteSlot(vs: seq<Val>, i: nat, v: Val)
    requires i < |vs| && v.w == vs[i].w
    ensures var o := OffsetsOf(Types(vs));
            o[i] + Size(v.w) == o[i + 1] <= |BytesOf(vs)| && Splice(BytesOf(vs), o[i], ValBytes(v)) == BytesOf(vs[i := v])
  {
    hide BytesOf, OffsetsOf, Splice, Types;
    SplitAtLocal(vs, i);
    SplitAtLocal(vs[i := v], i);
    assert vs[i := v][..i] == vs[..i] && vs[i := v][i + 1..] == vs[i + 1..];
    SpliceMiddle(BytesOf(vs[..i]), ValBytes(vs[i]), ValBytes(v), BytesOf(vs[i + 1..]));
  }

  lemma SpliceMiddle(a: seq<byte>, b: seq<byte>, b': seq<byte>, c: seq<byte>)
    requires |b| == |b'|
    ensures Splice(a + b + c, |a|, b') == a + b' + c
  {
    assert (a + b + c)[..|a|] == a;
    assert (a + b + c)[|a| + |b|..] == c;
  }

  lemma {:induction false} ZeroBytes(ts: seq<Width>)
    ensures BytesOf(ZeroVals(ts)) == Zeros(WidthsSize(ts))
  {
    if ts != [] {
      var n := |ts| - 1;
      assert ZeroVals(ts)[..n] == ZeroVals(ts[..n]);
      ZeroBytes(ts[..n]);
      LeOfZero(Size(ts[n]));
      assert Zeros(WidthsSize(ts)) == Zeros(WidthsSize(ts[..n])) + Zeros(Size(ts[n]));
    }
  }

  lemma {:induction false} LeOfZero(n: nat)
    ensures Le(0, n) == Zeros(n)
  {
    if n > 0 {
      LeDigit(0, n);
      LeOfZero(n - 1);
      assert Zeros(n) == [0] + Zeros(n - 1);
    }
  }

  /** A call's locals area: each argument in its slot, every other local zero. */
  lemma CallLocals(args: seq<Val>, locals: seq<Width>)
    ensures BytesOf(args) + Zeros(WidthsSize(locals)) == BytesOf(args + ZeroVals(locals))
    ensures Types(args + ZeroVals(locals)) == Types(args) + locals
    ensures OffsetsOf(Types(args) + locals)[|args| + |locals|] == WidthsSize(Types(args)) + WidthsSize(locals)
  {
    hide BytesOf, WidthsSize, Zeros;
    ZeroBytes(locals);
    BytesOfConcat(args, ZeroVals(locals));
    WidthsSizeConcat(Types(args), locals);
    var ts := Types(args) + locals;
    assert ts[..|ts|] == ts;
    assert Types(args + ZeroVals(locals)) == ts;
  }
}
