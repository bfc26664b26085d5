/**
 The skip list of free sorted blocks, on blocks of pairwise distinct sizes: relative offsets between blocks,
 thirteen index levels, the last of which links every block.
 */
module SkipList {
  import opened Bytes

  const LEVELS: nat := 13      // SORTED_BLOCK_INDICES_LEVEL

  /** The parts of a block the level loops do not change: its payload size, its number of index levels, and the
      links of the chain of blocks of its size, both 0 where no other block has that size. */
  datatype Info = Info(size: nat, level: nat, pred: int, succ: int)

  /** Blocks by address; the offsets each block holds, one for every level. */
  type Infos = map<int, Info>
  type Offsets = map<int, seq<int>>

  predicate In(info: Infos, l: seq<int>) { forall i :: 0 <= i < |l| ==> l[i] in info }

  predicate Known(info: Infos, offs: Offsets, bs: seq<int>)
  {
    forall i :: 0 <= i < |bs| ==> bs[i] in info && bs[i] in offs && |offs[bs[i]]| == LEVELS
  }

  /** Is a block linked at a level? Higher levels have smaller indices. */
  predicate OnLevel(info: Infos, b: int, lev: nat)
    requires b in info
  {
    info[b].level + lev >= LEVELS
  }

  /** The blocks linked at a level, in the given order. */
  function Level(info: Infos, bs: seq<int>, lev: nat): (r: seq<int>)
    requires In(info, bs)
    ensures forall i :: 0 <= i < |r| ==> r[i] in bs
    decreases |bs|
  {
    if bs == [] then []
    else (if OnLevel(info, bs[0], lev) then [bs[0]] else []) + Level(info, bs[1..], lev)
  }

  /** What the j-th block of a level holds: the distance to the next, or 0. */
  function Hop(l: seq<int>, j: nat): int
    requires j < |l|
  {
    if j + 1 < |l| then l[j + 1] - l[j] else 0
  }

  ghost predicate Chain(offs: Offsets, l: seq<int>, lev: nat)
    requires lev < LEVELS
  {
    forall j :: 0 <= j < |l| ==> l[j] in offs && |offs[l[j]]| == LEVELS && offs[l[j]][lev] == Hop(l, j)
  }

  ghost predicate Ascending(info: Infos, bs: seq<int>)
    requires In(info, bs)
  {
    forall i, j :: 0 <= i < j < |bs| ==> info[bs[i]].size < info[bs[j]].size
  }

  predicate Single(x: Info) { x.size % 4 == 0 && 1 <= x.level <= LEVELS && x.pred == x.succ == 0 }

  /** The list's blocks in ascending order of size, the head block first. Sizes are multiples of 4, as a head stores them. */
  ghost predicate Ordered(info: Infos, offs: Offsets, head: int, bs: seq<int>)
  {
    && Known(info, offs, bs) && bs != [] && bs[0] == head && info[head] == Info(0, LEVELS, 0, 0)
    && Ascending(info, bs) && forall i :: 0 <= i < |bs| ==> Single(info[bs[i]])
  }

  /** Every level links exactly its blocks, in order. */
  ghost predicate Inv(info: Infos, offs: Offsets, head: int, bs: seq<int>)
  {
    Ordered(info, offs, head, bs) && forall lev :: 0 <= lev < LEVELS ==> Chain(offs, Level(info, bs, lev), lev)
  }

  // ----- levels -----

  lemma Assoc(a: seq<int>, b: seq<int>, c: seq<int>)
    ensures (a + b) + c == a + (b + c)
  {
  }

  lemma {:induction false} LevelConcat(info: Infos, a: seq<int>, b: seq<int>, lev: nat)
    requires In(info, a) && In(info, b)
    ensures In(info, a + b)
    ensures Level(info, a + b, lev) == Level(info, a, lev) + Level(info, b, lev)
    decreases |a|
  {
    if a == [] {
      assert a + b == b;
    } else {
      assert (a + b)[0] == a[0] && (a + b)[1..] == a[1..] + b;
      LevelConcat(info, a[1..], b, lev);
      Assoc(if OnLevel(info, a[0], lev) then [a[0]] else [], Level(info, a[1..], lev), Level(info, b, lev));
    }
  }

  /** The bottom level links every block. */
  lemma {:induction false} BottomIsAll(info: Infos, bs: seq<int>)
    requires forall i :: 0 <= i < |bs| ==> bs[i] in info && info[bs[i]].level >= 1
    ensures Level(info, bs, LEVELS - 1) == bs
    decreases |bs|
  {
    if bs != [] {
      BottomIsAll(info, bs[1..]);
      assert bs == [bs[0]] + bs[1..];
    }
  }

  /** a's elements occur in b in the same order. */
  predicate Subsequence(a: seq<int>, b: seq<int>)
    decreases |b|
  {
    a == [] || (b != [] && if a[0] == b[0] then Subsequence(a[1..], b[1..]) else Subsequence(a, b[1..]))
  }

  /** Each level is a subsequence of the one below it. */
  lemma {:induction false} LevelsNest(info: Infos, bs: seq<int>, lev: nat)
    requires In(info, bs) && Ascending(info, bs)
    ensures Subsequence(Level(info, bs, lev), Level(info, bs, lev + 1))
    decreases |bs|
  {
    if bs != [] {
      LevelsNest(info, bs[1..], lev);
      var x, a, b := bs[0], Level(info, bs[1..], lev), Level(info, bs[1..], lev + 1);
      if OnLevel(info, x, lev) {
        assert ([x] + a)[1..] == a && ([x] + b)[1..] == b;
      } else if OnLevel(info, x, lev + 1) {
        assert ([x] + b)[1..] == b && [] + a == a;
        if a != [] {
          assert a[0] in bs[1..];
        }
      } else {
        assert [] + a == a && [] + b == b;
      }
    }
  }

  // ----- one level -----

  /** One turn of the insertion loop: b linked behind pos. */
  function Link(offs: Offsets, lev: nat, pos: int, b: int): Offsets
    requires lev < LEVELS && pos in offs && b in offs && |offs[pos]| == |offs[b]| == LEVELS
  {
    var o := offs[pos][lev];
    var linked := offs[b := offs[b][lev := if o != 0 then o - (b - pos) else 0]];
    linked[pos := linked[pos][lev := b - pos]]
  }

  /** One turn of the removal loop: prev linked past b. */
  function Unlink(offs: Offsets, lev: nat, prev: int, b: int): Offsets
    requires lev < LEVELS && prev in offs && b in offs && |offs[prev]| == |offs[b]| == LEVELS
  {
    offs[prev := offs[prev][lev := if offs[b][lev] != 0 then offs[prev][lev] + offs[b][lev] else 0]]
  }

  ghost predicate Distinct(l: seq<int>) { forall i, j :: 0 <= i < j < |l| ==> l[i] != l[j] }

  /** The hops around an element b between p and q. */
  lemma HopsAround(p: seq<int>, q: seq<int>, b: int, j: nat)
    requires p != [] && j < |p + [b] + q|
    ensures var n, l, l' := |p|, p + q, p + [b] + q;
      && (j < n ==> l'[j] == l[j] == p[j]) && (j == n ==> l'[j] == b) && (j > n ==> l'[j] == l[j - 1] == q[j - n - 1])
      && Hop(l', j) == (if j < n - 1 then Hop(l, j) else if j == n - 1 then b - p[j] else if j > n then Hop(l, j - 1)
                        else if q != [] then q[0] - b else 0)
      && Hop(l, n - 1) == (if q != [] then q[0] - p[n - 1] else 0)
  {
  }

  lemma LinkChain(offs: Offsets, p: seq<int>, q: seq<int>, lev: nat, b: int)
    requires lev < LEVELS && p != [] && Chain(offs, p + q, lev) && Distinct(p + q) && b !in p + q
    requires b in offs && |offs[b]| == LEVELS
    ensures p[|p| - 1] in offs && |offs[p[|p| - 1]]| == LEVELS
    ensures Chain(Link(offs, lev, p[|p| - 1], b), p + [b] + q, lev)
  {
    hide Hop;
    var n, l, l' := |p|, p + q, p + [b] + q;
    var pos := p[n - 1];
    HopsAround(p, q, b, n);
    assert l[n - 1] == pos;
    var r := Link(offs, lev, pos, b);
    if q != [] { assert l[n] == q[0]; }
    forall j | 0 <= j < |l'| ensures l'[j] in r && |r[l'[j]]| == LEVELS && r[l'[j]][lev] == Hop(l', j) {
      HopsAround(p, q, b, j);
    }
  }

  lemma UnlinkChain(offs: Offsets, p: seq<int>, q: seq<int>, lev: nat, b: int)
    requires lev < LEVELS && p != [] && Chain(offs, p + [b] + q, lev) && Distinct(p + [b] + q)
    ensures p[|p| - 1] in offs && |offs[p[|p| - 1]]| == LEVELS && b in offs && |offs[b]| == LEVELS
    ensures Chain(Unlink(offs, lev, p[|p| - 1], b), p + q, lev)
  {
    hide Hop;
    var n, l, l' := |p|, p + [b] + q, p + q;
    var prev := p[n - 1];
    HopsAround(p, q, b, n);
    HopsAround(p, q, b, n - 1);
    assert l[n - 1] == prev && l[n] == b;
    var r := Unlink(offs, lev, prev, b);
    if q != [] { assert l[n + 1] == q[0]; }
    forall j | 0 <= j < |l'| ensures l'[j] in r && |r[l'[j]]| == LEVELS && r[l'[j]][lev] == Hop(l', j) {
      HopsAround(p, q, b, if j < n then j else j + 1);
    }
  }

  /** The other levels, and blocks not on this one, keep their offsets. */
  ghost predicate OnlyLevel(offs: Offsets, offs': Offsets, lev: nat)
  {
    offs'.Keys == offs.Keys && forall x :: x in offs && |offs[x]| == LEVELS ==>
      |offs'[x]| == LEVELS && forall k :: 0 <= k < LEVELS && k != lev ==> offs'[x][k] == offs[x][k]
  }

  lemma ChainOther(offs: Offsets, offs': Offsets, lev: nat, l: seq<int>, k: nat)
    requires lev < LEVELS && k < LEVELS && k != lev && OnlyLevel(offs, offs', lev) && Chain(offs, l, k)
    ensures Chain(offs', l, k)
  {
  }

  // ----- where a block goes -----

  predicate Smaller(info: Infos, l: seq<int>, size: int)
    requires In(info, l)
  {
    forall i :: 0 <= i < |l| ==> info[l[i]].size < size
  }

  predicate NoSmaller(info: Infos, l: seq<int>, size: int)
    requires In(info, l)
  {
    forall i :: 0 <= i < |l| ==> info[l[i]].size >= size
  }

  /** How many of the first blocks are smaller. */
  function Below(info: Infos, l: seq<int>, size: nat): (n: nat)
    requires In(info, l)
    ensures n <= |l|
    ensures forall i :: 0 <= i < n ==> info[l[i]].size < size
    ensures n < |l| ==> info[l[n]].size >= size
  {
    if l == [] || info[l[0]].size >= size then 0 else 1 + Below(info, l[1..], size)
  }

  lemma {:induction false} BelowIs(info: Infos, p: seq<int>, q: seq<int>, size: nat)
    requires In(info, p) && In(info, q) && Smaller(info, p, size) && NoSmaller(info, q, size)
    ensures In(info, p + q) && Below(info, p + q, size) == |p|
    decreases |p|
  {
    if p == [] {
      assert p + q == q;
    } else {
      BelowIs(info, p[1..], q, size);
      assert (p + q)[0] == p[0] && (p + q)[1..] == p[1..] + q;
    }
  }

  /** The sorted list with a block added. */
  function Added(info: Infos, bs: seq<int>, b: int): seq<int>
    requires b in info && In(info, bs)
  {
    var n := Below(info, bs, info[b].size);
    bs[..n] + [b] + bs[n..]
  }

  /** The block of a level behind which a size belongs. */
  function Place(info: Infos, bs: seq<int>, lev: nat, size: nat): int
    requires In(info, bs) && Below(info, Level(info, bs, lev), size) > 0
  {
    Level(info, bs, lev)[Below(info, Level(info, bs, lev), size) - 1]
  }

  lemma LevelSizes(info: Infos, bs: seq<int>, lev: nat, size: nat)
    requires In(info, bs)
    ensures In(info, Level(info, bs, lev))
    ensures Smaller(info, bs, size) ==> Smaller(info, Level(info, bs, lev), size)
    ensures NoSmaller(info, bs, size) ==> NoSmaller(info, Level(info, bs, lev), size)
  {
    hide Level, OnLevel;
    var l := Level(info, bs, lev);
    forall i | 0 <= i < |l| ensures l[i] in info && exists j :: 0 <= j < |bs| && bs[j] == l[i] { assert l[i] in bs; }
  }

  /** A list cut around b, and each of its levels cut the same way: the smaller blocks, b if linked there, the rest. */
  lemma CutLevel(info: Infos, lo: seq<int>, hi: seq<int>, b: int, lev: nat, size: nat)
    requires In(info, lo) && In(info, hi) && b in info && info[b].size >= size
    requires Smaller(info, lo, size) && NoSmaller(info, hi, size)
    ensures In(info, lo + hi) && In(info, lo + [b] + hi)
    ensures var p, q := Level(info, lo, lev), Level(info, hi, lev);
      && Level(info, lo + hi, lev) == p + q && In(info, p + q) && Below(info, p + q, size) == |p|
      && var w := p + (if OnLevel(info, b, lev) then [b] else []) + q;
      && Level(info, lo + [b] + hi, lev) == w && In(info, w) && Below(info, w, size) == |p|
  {
    hide Level, Below, OnLevel;
    var p, q, m := Level(info, lo, lev), Level(info, hi, lev), Level(info, [b], lev);
    LevelConcat(info, lo, hi, lev);
    LevelConcat(info, lo, [b], lev);
    LevelConcat(info, lo + [b], hi, lev);
    LevelOne(info, b, lev);
    LevelSizes(info, lo, lev, size);
    LevelSizes(info, hi, lev, size);
    BelowIs(info, p, q, size);
    BelowIs(info, p, m + q, size);
    assert p + m + q == p + (m + q);
  }

  lemma LevelOne(info: Infos, b: int, lev: nat)
    requires b in info
    ensures Level(info, [b], lev) == if OnLevel(info, b, lev) then [b] else []
  {
    assert [b][1..] == [];
  }

  /** The head block is first on every level. */
  lemma HeadFirst(info: Infos, offs: Offsets, head: int, bs: seq<int>, lev: nat)
    requires Ordered(info, offs, head, bs)
    ensures var l := Level(info, bs, lev); l != [] && l[0] == head
  {
  }

  /** So every positive size has a place on every level. */
  lemma Placed(info: Infos, offs: Offsets, head: int, bs: seq<int>, lev: nat, size: nat)
    requires Ordered(info, offs, head, bs) && size > 0
    ensures Below(info, Level(info, bs, lev), size) > 0
    ensures var x := Place(info, bs, lev, size); x in Level(info, bs, lev) && x in bs && x in offs && |offs[x]| == LEVELS
  {
    hide Level;
    HeadFirst(info, offs, head, bs, lev);
    var l := Level(info, bs, lev);
    assert Place(info, bs, lev, size) == l[Below(info, l, size) - 1];
  }

  lemma LevelDistinct(info: Infos, bs: seq<int>, lev: nat)
    requires In(info, bs) && Distinct(bs)
    ensures Distinct(Level(info, bs, lev))
    decreases |bs|
  {
    if bs != [] {
      LevelDistinct(info, bs[1..], lev);
      var l := Level(info, bs[1..], lev);
      assert forall i :: 0 <= i < |l| ==> l[i] in bs[1..];
      assert bs[0] !in bs[1..];
      assert [] + l == l;
    }
  }

  // ----- insertion and removal -----

  function FirstLevel(info: Infos, b: int): nat
    requires b in info
  {
    if info[b].level <= LEVELS then LEVELS - info[b].level else 0
  }

  /** The level loop of insertion from lev on, over the blocks bs, b not yet among them. */
  function LinkFrom(info: Infos, offs: Offsets, head: int, bs: seq<int>, b: int, lev: nat): Offsets
    requires Ordered(info, offs, head, bs) && b in info && b in offs && |offs[b]| == LEVELS && info[b].size > 0
    decreases LEVELS - lev
  {
    if lev >= LEVELS then offs
    else
      Placed(info, offs, head, bs, lev, info[b].size);
      LinkFrom(info, Link(offs, lev, Place(info, bs, lev, info[b].size), b), head, bs, b, lev + 1)
  }

  /** The level loop of removal, over the blocks bs; the size looked up is the block's less one. */
  function UnlinkFrom(info: Infos, offs: Offsets, head: int, bs: seq<int>, b: int, lev: nat): Offsets
    requires Ordered(info, offs, head, bs) && b in info && b in offs && |offs[b]| == LEVELS && info[b].size > 1
    decreases LEVELS - lev
  {
    if lev >= LEVELS then offs
    else
      Placed(info, offs, head, bs, lev, info[b].size - 1);
      UnlinkFrom(info, Unlink(offs, lev, Place(info, bs, lev, info[b].size - 1), b), head, bs, b, lev + 1)
  }

  /** A block that may be inserted: not yet listed, of a size no listed block has. */
  ghost predicate Insertable(info: Infos, offs: Offsets, bs: seq<int>, b: int)
  {
    && b in info && b in offs && |offs[b]| == LEVELS && b !in bs && info[b].size > 0 && Single(info[b])
    && In(info, bs) && forall i :: 0 <= i < |bs| ==> info[bs[i]].size != info[b].size
  }

  /** May a level loop that starts at lev, over the blocks bs, change what x holds for level k? Only on levels from lev
      on, and only in b and the blocks linked there. */
  ghost predicate Touches(info: Infos, bs: seq<int>, b: int, lev: nat, x: int, k: nat)
    requires In(info, bs)
  {
    k >= lev && (x == b || x in Level(info, bs, k))
  }

  ghost predicate Shaped(offs: Offsets, offs': Offsets)
  {
    offs'.Keys == offs.Keys && forall x :: x in offs ==> |offs'[x]| == |offs[x]|
  }

  /** Everything else is kept. */
  ghost predicate Framed(info: Infos, offs: Offsets, offs': Offsets, bs: seq<int>, b: int, lev: nat)
    requires In(info, bs)
  {
    Shaped(offs, offs') &&
    forall x, k :: x in offs && 0 <= k < |offs[x]| && !Touches(info, bs, b, lev, x, k) ==> offs'[x][k] == offs[x][k]
  }

  lemma LinkFrame(info: Infos, offs: Offsets, bs: seq<int>, b: int, lev: nat, pos: int)
    requires lev < LEVELS && pos in offs && b in offs && |offs[pos]| == |offs[b]| == LEVELS && In(info, bs)
    requires pos in Level(info, bs, lev)
    ensures Framed(info, offs, Link(offs, lev, pos, b), bs, b, lev) && OnlyLevel(offs, Link(offs, lev, pos, b), lev)
    ensures Framed(info, offs, Unlink(offs, lev, pos, b), bs, b, lev) && OnlyLevel(offs, Unlink(offs, lev, pos, b), lev)
  {
    hide Level;
  }

  lemma FrameCompose(info: Infos, o: Offsets, o1: Offsets, o2: Offsets, bs: seq<int>, b: int, lev: nat)
    requires In(info, bs) && Framed(info, o, o1, bs, b, lev) && Framed(info, o1, o2, bs, b, lev + 1)
    ensures Framed(info, o, o2, bs, b, lev)
  {
    hide Level;
    forall x, k | x in o && 0 <= k < |o[x]| && !Touches(info, bs, b, lev, x, k) ensures o2[x][k] == o[x][k] {
      assert !Touches(info, bs, b, lev + 1, x, k);
    }
  }

  /** A chain the loop does not reach is still a chain. */
  lemma ChainFramed(info: Infos, o: Offsets, o': Offsets, bs: seq<int>, b: int, lev: nat, l: seq<int>, k: nat)
    requires In(info, bs) && Framed(info, o, o', bs, b, lev) && k < lev && k < LEVELS && Chain(o, l, k)
    ensures Chain(o', l, k)
  {
    hide Level;
    forall j | 0 <= j < |l| ensures l[j] in o' && |o'[l[j]]| == LEVELS && o'[l[j]][k] == Hop(l, j) {
      assert !Touches(info, bs, b, lev, l[j], k);
    }
  }

  ghost predicate Chains(info: Infos, offs: Offsets, bs: seq<int>, lev: nat)
    requires In(info, bs)
  {
    forall k :: lev <= k < LEVELS ==> Chain(offs, Level(info, bs, k), k)
  }

  lemma ChainsStep(info: Infos, offs: Offsets, offs': Offsets, bs: seq<int>, lev: nat)
    requires In(info, bs) && lev < LEVELS && OnlyLevel(offs, offs', lev) && Chains(info, offs, bs, lev)
    ensures Chains(info, offs', bs, lev + 1)
  {
    hide Level;
    forall k | lev + 1 <= k < LEVELS ensures Chain(offs', Level(info, bs, k), k) {
      ChainOther(offs, offs', lev, Level(info, bs, k), k);
    }
  }

  /** The insertion loop links b on every level from lev on and changes nothing else. */
  lemma {:induction false} LinkFromLinks(info: Infos, offs: Offsets, head: int, bs: seq<int>, b: int, lev: nat)
    requires Ordered(info, offs, head, bs) && Insertable(info, offs, bs, b)
    requires FirstLevel(info, b) <= lev && Chains(info, offs, bs, lev)
    ensures var r := LinkFrom(info, offs, head, bs, b, lev);
      Framed(info, offs, r, bs, b, lev) && In(info, Added(info, bs, b)) && Chains(info, r, Added(info, bs, b), lev)
    decreases LEVELS - lev
  {
    hide Level, Below, Link, Chain, Framed, OnlyLevel, Hop;
    AddedIn(info, bs, b);
    if lev < LEVELS {
      var size := info[b].size;
      Placed(info, offs, head, bs, lev, size);
      var pos := Place(info, bs, lev, size);
      var o1 := Link(offs, lev, pos, b);
      LinkFrame(info, offs, bs, b, lev, pos);
      ShapeKept(info, offs, o1, head, bs, b, lev);
      ChainsStep(info, offs, o1, bs, lev);
      LinkFromLinks(info, o1, head, bs, b, lev + 1);
      var r := LinkFrom(info, o1, head, bs, b, lev + 1);
      FrameCompose(info, offs, o1, r, bs, b, lev);
      LinkLevel(info, offs, head, bs, b, lev);
      ChainFramed(info, o1, r, bs, b, lev + 1, Level(info, Added(info, bs, b), lev), lev);
    } else {
      FrameRefl(info, offs, bs, b, lev);
    }
  }

  lemma FrameRefl(info: Infos, offs: Offsets, bs: seq<int>, b: int, lev: nat)
    requires In(info, bs)
    ensures Framed(info, offs, offs, bs, b, lev)
  {
  }

  lemma AddedIn(info: Infos, bs: seq<int>, b: int)
    requires b in info && In(info, bs)
    ensures In(info, Added(info, bs, b))
  {
  }

  lemma ShapeKept(info: Infos, o: Offsets, o': Offsets, head: int, bs: seq<int>, b: int, lev: nat)
    requires In(info, bs) && Framed(info, o, o', bs, b, lev)
    ensures Ordered(info, o, head, bs) ==> Ordered(info, o', head, bs)
    ensures b in o && |o[b]| == LEVELS ==> b in o' && |o'[b]| == LEVELS
    ensures Insertable(info, o, bs, b) ==> Insertable(info, o', bs, b)
  {
    hide Level, Touches, Ascending, Single;
    FramedKeys(info, o, o', bs, b, lev);
    if Known(info, o, bs) {
      forall i | 0 <= i < |bs| ensures bs[i] in o' && |o'[bs[i]]| == LEVELS {
        var x := bs[i];
        assert x in o && x in o';
      }
    }
  }

  /** Cutting an ascending list where a size belongs. */
  lemma CutBelow(info: Infos, bs: seq<int>, size: nat)
    requires In(info, bs) && Ascending(info, bs)
    ensures var n := Below(info, bs, size);
      && bs == bs[..n] + bs[n..] && In(info, bs[..n]) && In(info, bs[n..])
      && Smaller(info, bs[..n], size) && NoSmaller(info, bs[n..], size)
  {
    hide Below;
    var n := Below(info, bs, size);
    FromHere(info, bs, n, size);
  }

  lemma FromHere(info: Infos, bs: seq<int>, n: nat, size: nat)
    requires In(info, bs) && Ascending(info, bs) && n <= |bs| && (n < |bs| ==> info[bs[n]].size >= size)
    ensures In(info, bs[n..]) && NoSmaller(info, bs[n..], size)
  {
    forall i | 0 <= i < |bs[n..]| ensures bs[n..][i] in info && info[bs[n..][i]].size >= size {
      assert bs[n..][i] == bs[n + i] && (i > 0 ==> info[bs[n]].size < info[bs[n + i]].size);
    }
  }

  lemma LinkLevel(info: Infos, offs: Offsets, head: int, bs: seq<int>, b: int, lev: nat)
    requires Ordered(info, offs, head, bs) && Insertable(info, offs, bs, b)
    requires FirstLevel(info, b) <= lev < LEVELS && Chain(offs, Level(info, bs, lev), lev)
    ensures Below(info, Level(info, bs, lev), info[b].size) > 0 && In(info, Added(info, bs, b))
    ensures var pos := Place(info, bs, lev, info[b].size);
      && pos in offs && |offs[pos]| == LEVELS
      && Chain(Link(offs, lev, pos, b), Level(info, Added(info, bs, b), lev), lev)
  {
    hide Level, Below, Link, Chain, Hop;
    var size := info[b].size;
    var n := Below(info, bs, size);
    AddedIn(info, bs, b);
    CutBelow(info, bs, size);
    CutLevel(info, bs[..n], bs[n..], b, lev, size);
    var p, q := Level(info, bs[..n], lev), Level(info, bs[n..], lev);
    Placed(info, offs, head, bs, lev, size);
    assert (p + q)[|p| - 1] == p[|p| - 1];
    LevelDistinctFrom(info, offs, bs, b, lev);
    LinkChain(offs, p, q, lev, b);
  }

  lemma LevelDistinctFrom(info: Infos, offs: Offsets, bs: seq<int>, b: int, lev: nat)
    requires In(info, bs) && Ascending(info, bs)
    ensures Distinct(Level(info, bs, lev)) && (b !in bs ==> b !in Level(info, bs, lev))
  {
    LevelDistinct(info, bs, lev);
  }

  /** The removal loop unlinks b, listed between lo and hi, from every level from lev on and changes nothing else. */
  lemma {:induction false} UnlinkFromUnlinks(info: Infos, offs: Offsets, head: int, lo: seq<int>, hi: seq<int>, b: int,
      lev: nat)
    requires lo != [] && Ordered(info, offs, head, lo + [b] + hi) && b in info && FirstLevel(info, b) <= lev
    requires In(info, lo + [b] + hi) && Chains(info, offs, lo + [b] + hi, lev)
    ensures b in info && b in offs && |offs[b]| == LEVELS && info[b].size > 1
    ensures var r := UnlinkFrom(info, offs, head, lo + [b] + hi, b, lev);
      Framed(info, offs, r, lo + [b] + hi, b, lev) && In(info, lo + hi) && Chains(info, r, lo + hi, lev)
    decreases LEVELS - lev
  {
    hide Level, Below, Unlink, Chain, Framed, OnlyLevel, Hop;
    var bs := lo + [b] + hi;
    CutFacts(info, offs, head, lo, hi, b);
    if lev < LEVELS {
      var size := info[b].size - 1;
      Placed(info, offs, head, bs, lev, size);
      var prev := Place(info, bs, lev, size);
      var o1 := Unlink(offs, lev, prev, b);
      LinkFrame(info, offs, bs, b, lev, prev);
      ShapeKept(info, offs, o1, head, bs, b, lev);
      ChainsStep(info, offs, o1, bs, lev);
      UnlinkFromUnlinks(info, o1, head, lo, hi, b, lev + 1);
      var r := UnlinkFrom(info, o1, head, bs, b, lev + 1);
      FrameCompose(info, offs, o1, r, bs, b, lev);
      UnlinkLevel(info, offs, head, lo, hi, b, lev);
      ChainFramed(info, o1, r, bs, b, lev + 1, Level(info, lo + hi, lev), lev);
    } else {
      FrameRefl(info, offs, bs, b, lev);
    }
  }

  /** Around a listed block that is not the head: sizes a multiple of 4, so one less than its size cuts the list there. */
  lemma CutFacts(info: Infos, offs: Offsets, head: int, lo: seq<int>, hi: seq<int>, b: int)
    requires lo != [] && Ordered(info, offs, head, lo + [b] + hi)
    ensures b in info && b in offs && |offs[b]| == LEVELS && info[b].size > 1 && Single(info[b])
    ensures In(info, lo) && In(info, hi) && In(info, lo + hi) && b !in lo + hi
    ensures Smaller(info, lo, info[b].size - 1) && NoSmaller(info, hi, info[b].size - 1)
    ensures Smaller(info, lo, info[b].size) && NoSmaller(info, hi, info[b].size)
    ensures Ordered(info, offs, head, lo + hi)
  {
    var bs := lo + [b] + hi;
    var n := |lo|;
    assert bs[n] == b;
    forall i | 0 <= i < |lo| ensures bs[i] == lo[i] && lo[i] in info && info[lo[i]].size < info[b].size - 1 && lo[i] != b {
      assert info[bs[i]].size < info[bs[n]].size && Single(info[bs[i]]) && Single(info[bs[n]]);
    }
    forall i | 0 <= i < |hi| ensures hi[i] in info && info[hi[i]].size > info[b].size && hi[i] != b {
      assert bs[n + 1 + i] == hi[i] && info[bs[n + 1 + i]].size > info[bs[n]].size;
    }
    Without(info, offs, head, lo, hi, b);
  }

  lemma Without(info: Infos, offs: Offsets, head: int, lo: seq<int>, hi: seq<int>, b: int)
    requires lo != [] && Ordered(info, offs, head, lo + [b] + hi)
    ensures Ordered(info, offs, head, lo + hi)
  {
    hide Single;
    var bs, l := lo + [b] + hi, lo + hi;
    assert bs[0] == lo[0] == l[0];
    forall i | 0 <= i < |l| ensures l[i] == bs[if i < |lo| then i else i + 1] {}
  }

  lemma UnlinkLevel(info: Infos, offs: Offsets, head: int, lo: seq<int>, hi: seq<int>, b: int, lev: nat)
    requires lo != [] && Ordered(info, offs, head, lo + [b] + hi)
    requires b in info && FirstLevel(info, b) <= lev < LEVELS && Chain(offs, Level(info, lo + [b] + hi, lev), lev)
    ensures info[b].size > 1 && Below(info, Level(info, lo + [b] + hi, lev), info[b].size - 1) > 0
    ensures b in offs && |offs[b]| == LEVELS && In(info, lo + hi)
    ensures var prev := Place(info, lo + [b] + hi, lev, info[b].size - 1);
      && prev in offs && |offs[prev]| == LEVELS
      && Chain(Unlink(offs, lev, prev, b), Level(info, lo + hi, lev), lev)
  {
    hide Level, Below, Unlink, Chain, Hop;
    var bs := lo + [b] + hi;
    CutFacts(info, offs, head, lo, hi, b);
    CutLevel(info, lo, hi, b, lev, info[b].size - 1);
    var p, q := Level(info, lo, lev), Level(info, hi, lev);
    Placed(info, offs, head, bs, lev, info[b].size - 1);
    assert (p + [b] + q)[|p| - 1] == p[|p| - 1];
    LevelDistinctFrom(info, offs, bs, b, lev);
    UnlinkChain(offs, p, q, lev, b);
  }

  // ----- main results -----

  /** The offsets after inserting b, and after removing it. */
  function Inserted(info: Infos, offs: Offsets, head: int, bs: seq<int>, b: int): Offsets
    requires Ordered(info, offs, head, bs) && b in info && b in offs && |offs[b]| == LEVELS && info[b].size > 0
  {
    LinkFrom(info, offs, head, bs, b, FirstLevel(info, b))
  }

  function Removed(info: Infos, offs: Offsets, head: int, bs: seq<int>, b: int): Offsets
    requires Ordered(info, offs, head, bs) && b in info && b in offs && |offs[b]| == LEVELS && info[b].size > 1
  {
    UnlinkFrom(info, offs, head, bs, b, FirstLevel(info, b))
  }

  /** Levels above b's own are the same with b and without. */
  lemma HigherLevels(info: Infos, lo: seq<int>, hi: seq<int>, b: int, lev: nat)
    requires In(info, lo) && In(info, hi) && b in info && lev < FirstLevel(info, b)
    ensures In(info, lo + hi) && In(info, lo + [b] + hi) && Level(info, lo + [b] + hi, lev) == Level(info, lo + hi, lev)
  {
    hide Level;
    LevelConcat(info, lo, hi, lev);
    LevelConcat(info, lo, [b], lev);
    LevelConcat(info, lo + [b], hi, lev);
    LevelOne(info, b, lev);
    assert Level(info, lo, lev) + [] == Level(info, lo, lev);
  }

  lemma WithAdded(info: Infos, offs: Offsets, head: int, lo: seq<int>, hi: seq<int>, b: int)
    requires lo != [] && Ordered(info, offs, head, lo + hi) && Insertable(info, offs, lo + hi, b)
    requires In(info, lo) && In(info, hi) && Smaller(info, lo, info[b].size) && NoSmaller(info, hi, info[b].size)
    ensures Ordered(info, offs, head, lo + [b] + hi)
  {
    hide Single, Ascending;
    var bs, l := lo + [b] + hi, lo + hi;
    assert bs[0] == lo[0] == l[0];
    AscendingWith(info, lo, hi, b);
    forall i | 0 <= i < |bs| ensures bs[i] == b || bs[i] == l[if i < |lo| then i else i - 1] {}
  }

  lemma AscendingWith(info: Infos, lo: seq<int>, hi: seq<int>, b: int)
    requires In(info, lo) && In(info, hi) && b in info && In(info, lo + hi) && Ascending(info, lo + hi)
    requires Smaller(info, lo, info[b].size) && NoSmaller(info, hi, info[b].size)
    requires forall i :: 0 <= i < |lo + hi| ==> info[(lo + hi)[i]].size != info[b].size
    ensures In(info, lo + [b] + hi) && Ascending(info, lo + [b] + hi)
  {
    var bs, l := lo + [b] + hi, lo + hi;
    var n := |lo|;
    forall i | 0 <= i < |hi| ensures info[b].size < info[hi[i]].size { assert l[n + i] == hi[i]; }
    forall i, j | 0 <= i < j < |bs| ensures bs[i] in info && bs[j] in info && info[bs[i]].size < info[bs[j]].size {
      if i != n && j != n {
        assert bs[i] == l[if i < n then i else i - 1] && bs[j] == l[if j < n then j else j - 1];
      }
    }
  }

  /** Insertion keeps every level sorted, linked and complete, b now among the blocks, and keeps all other offsets. */
  lemma InsertKeeps(info: Infos, offs: Offsets, head: int, bs: seq<int>, b: int)
    requires Inv(info, offs, head, bs) && Insertable(info, offs, bs, b)
    ensures Inv(info, Inserted(info, offs, head, bs, b), head, Added(info, bs, b))
    ensures Framed(info, offs, Inserted(info, offs, head, bs, b), bs, b, FirstLevel(info, b))
    ensures multiset(Added(info, bs, b)) == multiset(bs) + multiset{b}
  {
    hide Level, Below, Link, Chain, Framed, OnlyLevel, Hop, LinkFrom, Single;
    var r, n, f := Inserted(info, offs, head, bs, b), Below(info, bs, info[b].size), FirstLevel(info, b);
    LinkFromLinks(info, offs, head, bs, b, f);
    CutBelow(info, bs, info[b].size);
    var lo, hi := bs[..n], bs[n..];
    HeadBelow(info, offs, head, bs, info[b].size);
    ShapeKept(info, offs, r, head, bs, b, f);
    WithAdded(info, r, head, lo, hi, b);
    forall k | 0 <= k < LEVELS ensures Chain(r, Level(info, Added(info, bs, b), k), k) {
      if k < f {
        HigherLevels(info, lo, hi, b, k);
        ChainFramed(info, offs, r, bs, b, f, Level(info, bs, k), k);
      }
    }
  }

  lemma HeadBelow(info: Infos, offs: Offsets, head: int, bs: seq<int>, size: nat)
    requires Ordered(info, offs, head, bs) && size > 0
    ensures Below(info, bs, size) > 0
  {
  }

  /** Removal keeps every level sorted, linked and complete without b, and keeps all other offsets. */
  lemma RemoveKeeps(info: Infos, offs: Offsets, head: int, lo: seq<int>, hi: seq<int>, b: int)
    requires lo != [] && Inv(info, offs, head, lo + [b] + hi)
    ensures b in info && b in offs && |offs[b]| == LEVELS && info[b].size > 1
    ensures var r := Removed(info, offs, head, lo + [b] + hi, b);
      Inv(info, r, head, lo + hi) && Framed(info, offs, r, lo + [b] + hi, b, FirstLevel(info, b))
  {
    hide Level, Below, Link, Chain, Framed, OnlyLevel, Hop, UnlinkFrom, Single;
    var bs := lo + [b] + hi;
    CutFacts(info, offs, head, lo, hi, b);
    var r, f := Removed(info, offs, head, bs, b), FirstLevel(info, b);
    UnlinkFromUnlinks(info, offs, head, lo, hi, b, f);
    ShapeKept(info, offs, r, head, bs, b, f);
    CutFacts(info, r, head, lo, hi, b);
    forall k | 0 <= k < LEVELS ensures Chain(r, Level(info, lo + hi, k), k) {
      if k < f {
        HigherLevels(info, lo, hi, b, k);
        ChainFramed(info, offs, r, bs, b, f, Level(info, bs, k), k);
      }
    }
  }

  /** Removing a block right after inserting it gives every other block back its offsets. */
  lemma RemoveUndoesInsert(info: Infos, offs: Offsets, head: int, bs: seq<int>, b: int)
    requires Inv(info, offs, head, bs) && Insertable(info, offs, bs, b)
    ensures var o := Inserted(info, offs, head, bs, b); var bs' := Added(info, bs, b);
      && Inv(info, o, head, bs') && b in o && |o[b]| == LEVELS && info[b].size > 1
      && var r := Removed(info, o, head, bs', b);
      && Inv(info, r, head, bs) && r.Keys == offs.Keys && forall x :: x in offs && x != b && |offs[x]| == LEVELS ==> r[x] == offs[x]
  {
    hide Level, Below, Link, Chain, Framed, OnlyLevel, Hop, LinkFrom, UnlinkFrom, Single;
    var n, f := Below(info, bs, info[b].size), FirstLevel(info, b);
    InsertKeeps(info, offs, head, bs, b);
    CutBelow(info, bs, info[b].size);
    HeadBelow(info, offs, head, bs, info[b].size);
    var lo, hi := bs[..n], bs[n..];
    var o, bs' := Inserted(info, offs, head, bs, b), Added(info, bs, b);
    assert bs' == lo + [b] + hi && bs == lo + hi;
    RemoveKeeps(info, o, head, lo, hi, b);
    var r := Removed(info, o, head, bs', b);
    FramedKeys(info, offs, o, bs, b, f);
    FramedKeys(info, o, r, bs', b, f);
    forall x | x in offs && x != b && |offs[x]| == LEVELS ensures r[x] == offs[x] {
      forall k | 0 <= k < LEVELS ensures r[x][k] == offs[x][k] {
        CutLevelMember(info, lo, hi, b, k, x);
        if x in Level(info, bs, k) {
          ChainFixes(offs, r, Level(info, bs, k), k, x);
        } else {
          FramedAt(info, offs, o, bs, b, f, x, k);
          FramedAt(info, o, r, bs', b, f, x, k);
        }
      }
    }
  }

  lemma FramedKeys(info: Infos, o: Offsets, o': Offsets, bs: seq<int>, b: int, lev: nat)
    requires In(info, bs) && Framed(info, o, o', bs, b, lev)
    ensures o'.Keys == o.Keys && forall x :: x in o ==> |o'[x]| == |o[x]|
  {
    hide Level, Touches;
  }

  lemma FramedAt(info: Infos, o: Offsets, o': Offsets, bs: seq<int>, b: int, lev: nat, x: int, k: nat)
    requires In(info, bs) && Framed(info, o, o', bs, b, lev) && x in o && x in o' && k < |o[x]| && k < |o'[x]|
    requires x != b && x !in Level(info, bs, k)
    ensures o'[x][k] == o[x][k]
  {
    hide Level;
    assert !Touches(info, bs, b, lev, x, k);
  }

  /** What a block linked in a chain holds is fixed by the chain. */
  lemma ChainFixes(o: Offsets, o': Offsets, l: seq<int>, k: nat, x: int)
    requires k < LEVELS && Chain(o, l, k) && Chain(o', l, k) && x in l
    ensures x in o && x in o' && |o[x]| == |o'[x]| == LEVELS && o[x][k] == o'[x][k]
  {
    hide Hop;
  }

  lemma CutLevelMember(info: Infos, lo: seq<int>, hi: seq<int>, b: int, lev: nat, x: int)
    requires In(info, lo) && In(info, hi) && b in info && x != b
    ensures In(info, lo + hi) && In(info, lo + [b] + hi)
    ensures x in Level(info, lo + [b] + hi, lev) <==> x in Level(info, lo + hi, lev)
  {
    hide Level;
    LevelConcat(info, lo, hi, lev);
    LevelConcat(info, lo, [b], lev);
    LevelConcat(info, lo + [b], hi, lev);
    LevelOne(info, b, lev);
  }

  // ----- what the invariant means -----

  /** The blocks met by following one level's offsets from x, for at most so many hops. */
  function Walk(offs: Offsets, lev: nat, x: int, hops: nat): seq<int>
    requires lev < LEVELS
    decreases hops
  {
    [x] + if hops > 0 && x in offs && |offs[x]| == LEVELS && offs[x][lev] != 0 then Walk(offs, lev, x + offs[x][lev], hops - 1) else []
  }

  lemma {:induction false} WalkFrom(offs: Offsets, l: seq<int>, lev: nat, j: nat, hops: nat)
    requires lev < LEVELS && Chain(offs, l, lev) && Distinct(l) && j < |l| && hops >= |l| - 1 - j
    ensures Walk(offs, lev, l[j], hops) == l[j..]
    decreases |l| - j
  {
    hide Chain, Distinct;
    ChainAt(offs, l, lev, j);
    if j + 1 < |l| {
      WalkFrom(offs, l, lev, j + 1, hops - 1);
    }
  }

  /** Following the offsets of a level from the head ends, meets exactly the blocks of that level, smaller ones first and
      none twice, each of which is also met in that order on the level below; on the bottom level it meets every block. */
  lemma InvMeans(info: Infos, offs: Offsets, head: int, bs: seq<int>, lev: nat, hops: nat)
    requires Inv(info, offs, head, bs) && lev < LEVELS && hops >= |bs|
    ensures var w := Walk(offs, lev, head, hops);
      && w == Level(info, bs, lev) && Distinct(w) && In(info, w) && Ascending(info, w)
      && (forall b :: b in w <==> b in bs && OnLevel(info, b, lev))
      && (lev == LEVELS - 1 ==> w == bs) && (lev + 1 < LEVELS ==> Subsequence(w, Walk(offs, lev + 1, head, hops)))
  {
    hide Level, Chain, Walk, OnLevel, Single, Ascending;
    WalkIsLevel(info, offs, head, bs, lev, hops);
    LevelMembers(info, bs, lev);
    LevelAscending(info, bs, lev);
    if lev + 1 < LEVELS {
      WalkIsLevel(info, offs, head, bs, lev + 1, hops);
      LevelsNest(info, bs, lev);
    } else {
      Bottom(info, offs, head, bs);
    }
  }

  lemma WalkIsLevel(info: Infos, offs: Offsets, head: int, bs: seq<int>, lev: nat, hops: nat)
    requires Inv(info, offs, head, bs) && lev < LEVELS && hops >= |bs|
    ensures In(info, bs) && Walk(offs, lev, head, hops) == Level(info, bs, lev) && Distinct(Level(info, bs, lev))
  {
    hide Level, Chain, Walk, Single;
    LevelFacts(info, offs, head, bs, lev);
    LevelShort(info, bs, lev);
    WalkFrom(offs, Level(info, bs, lev), lev, 0, hops);
  }

  lemma {:induction false} LevelShort(info: Infos, bs: seq<int>, lev: nat)
    requires In(info, bs)
    ensures |Level(info, bs, lev)| <= |bs|
    decreases |bs|
  {
    if bs != [] { LevelShort(info, bs[1..], lev); }
  }

  lemma {:induction false} LevelMembers(info: Infos, bs: seq<int>, lev: nat)
    requires In(info, bs)
    ensures forall b :: b in Level(info, bs, lev) <==> b in bs && OnLevel(info, b, lev)
    decreases |bs|
  {
    if bs != [] {
      LevelMembers(info, bs[1..], lev);
      assert bs == [bs[0]] + bs[1..];
    }
  }

  lemma {:induction false} LevelAscending(info: Infos, bs: seq<int>, lev: nat)
    requires In(info, bs) && Ascending(info, bs)
    ensures In(info, Level(info, bs, lev)) && Ascending(info, Level(info, bs, lev))
    decreases |bs|
  {
    hide OnLevel;
    LevelSizes(info, bs, lev, 0);
    if bs != [] {
      var t := bs[1..];
      forall i | 0 <= i < |t| ensures t[i] == bs[i + 1] {}
      LevelAscending(info, t, lev);
      LevelSizes(info, t, lev, info[bs[0]].size + 1);
      AscendingCons(info, bs[0], Level(info, t, lev));
      assert [] + Level(info, t, lev) == Level(info, t, lev);
    }
  }

  lemma AscendingCons(info: Infos, x: int, l: seq<int>)
    requires x in info && In(info, l) && Ascending(info, l) && NoSmaller(info, l, info[x].size + 1)
    ensures In(info, [x] + l) && Ascending(info, [x] + l)
  {
    var w := [x] + l;
    forall i | 0 <= i < |w| ensures w[i] in info && (i > 0 ==> info[x].size < info[w[i]].size) {
      assert i > 0 ==> w[i] == l[i - 1];
    }
    forall i, j | 0 <= i < j < |w| ensures info[w[i]].size < info[w[j]].size {
      assert i > 0 ==> w[i] == l[i - 1] && w[j] == l[j - 1];
    }
  }

  // ----- whole runs -----

  /** Giving an unlisted block its level changes nothing listed. */
  lemma {:induction false} LevelAgree(info: Infos, info': Infos, bs: seq<int>, lev: nat)
    requires In(info, bs) && In(info', bs) && forall i :: 0 <= i < |bs| ==> info[bs[i]] == info'[bs[i]]
    ensures Level(info, bs, lev) == Level(info', bs, lev)
    decreases |bs|
  {
    if bs != [] {
      LevelAgree(info, info', bs[1..], lev);
    }
  }

  function Leveled(info: Infos, b: int, level: nat): Infos
    requires b in info
  {
    info[b := info[b].(level := level)]
  }

  lemma LeveledKeeps(info: Infos, offs: Offsets, head: int, bs: seq<int>, b: int, level: nat)
    requires Inv(info, offs, head, bs) && b in info && b !in bs
    ensures Inv(Leveled(info, b, level), offs, head, bs)
  {
    hide Single, Level, Chain;
    var info' := Leveled(info, b, level);
    forall i | 0 <= i < |bs| ensures bs[i] in info' && info'[bs[i]] == info[bs[i]] { assert bs[i] in bs; }
    forall lev | 0 <= lev < LEVELS ensures Chain(offs, Level(info', bs, lev), lev) {
      LevelAgree(info, info', bs, lev);
    }
  }

  /** The memory of the list, and the blocks in it. */
  datatype Listing = Listing(info: Infos, offs: Offsets, blocks: seq<int>)

  /** Insert a block with the level drawn for it, or remove a block. */
  datatype Op = Put(b: int, level: nat) | Take(b: int)

  function Where(bs: seq<int>, b: int): (n: nat)
    requires b in bs
    ensures n < |bs| && bs[n] == b
  {
    if bs[0] == b then 0 else 1 + Where(bs[1..], b)
  }

  function Dropped(bs: seq<int>, b: int): seq<int>
    requires b in bs
  {
    bs[..Where(bs, b)] + bs[Where(bs, b) + 1..]
  }

  ghost predicate Allowed(s: Listing, head: int, op: Op)
  {
    match op
    case Put(b, level) => b in s.info && Insertable(Leveled(s.info, b, level), s.offs, s.blocks, b)
    case Take(b) => b in s.blocks && b != head
  }

  ghost function Apply(s: Listing, head: int, op: Op): Listing
    requires Inv(s.info, s.offs, head, s.blocks) && Allowed(s, head, op)
  {
    match op
    case Put(b, level) =>
      var info := Leveled(s.info, b, level);
      LeveledKeeps(s.info, s.offs, head, s.blocks, b, level);
      Listing(info, Inserted(info, s.offs, head, s.blocks, b), Added(info, s.blocks, b))
    case Take(b) =>
      CutAt(s.info, s.offs, head, s.blocks, b);
      Listing(s.info, Removed(s.info, s.offs, head, s.blocks, b), Dropped(s.blocks, b))
  }

  lemma CutAt(info: Infos, offs: Offsets, head: int, bs: seq<int>, b: int)
    requires Ordered(info, offs, head, bs) && b in bs && b != head
    ensures var n := Where(bs, b); n > 0 && bs == bs[..n] + [b] + bs[n + 1..]
    ensures b in info && b in offs && |offs[b]| == LEVELS && info[b].size > 1
  {
    var n := Where(bs, b);
    assert bs == bs[..n] + [b] + bs[n + 1..];
    CutFacts(info, offs, head, bs[..n], bs[n + 1..], b);
  }

  function SetOf(l: seq<int>): set<int> { set x | x in l }

  /** The blocks in the list after an operation, by what was inserted and removed. */
  function Listed(have: set<int>, op: Op): set<int>
  {
    match op
    case Put(b, _) => have + {b}
    case Take(b) => have - {b}
  }

  /** One operation keeps the list. */
  lemma ApplyKeeps(s: Listing, head: int, op: Op)
    requires Inv(s.info, s.offs, head, s.blocks) && Allowed(s, head, op)
    ensures var r := Apply(s, head, op); Inv(r.info, r.offs, head, r.blocks) && SetOf(r.blocks) == Listed(SetOf(s.blocks), op)
  {
    hide Inserted, Removed, Level, Chain, Below, Single, Framed;
    match op
    case Put(b, level) =>
      var info := Leveled(s.info, b, level);
      LeveledKeeps(s.info, s.offs, head, s.blocks, b, level);
      InsertKeeps(info, s.offs, head, s.blocks, b);
      AddedSet(info, s.blocks, b);
    case Take(b) =>
      var n := Where(s.blocks, b);
      CutAt(s.info, s.offs, head, s.blocks, b);
      RemoveKeeps(s.info, s.offs, head, s.blocks[..n], s.blocks[n + 1..], b);
      AscendingDistinct(s.info, s.blocks);
      DroppedSet(s.blocks, n);
  }

  lemma AscendingDistinct(info: Infos, bs: seq<int>)
    requires In(info, bs) && Ascending(info, bs)
    ensures Distinct(bs)
  {
  }

  lemma AddedSet(info: Infos, bs: seq<int>, b: int)
    requires b in info && In(info, bs)
    ensures SetOf(Added(info, bs, b)) == SetOf(bs) + {b}
  {
    var n := Below(info, bs, info[b].size);
    assert bs == bs[..n] + bs[n..];
    forall x ensures x in Added(info, bs, b) <==> x in SetOf(bs) + {b} {
      assert x in bs <==> x in bs[..n] || x in bs[n..];
    }
  }

  lemma DroppedSet(bs: seq<int>, at: nat)
    requires at < |bs| && Distinct(bs)
    ensures SetOf(bs[..at] + bs[at + 1..]) == SetOf(bs) - {bs[at]}
  {
    var lo, hi := bs[..at], bs[at + 1..];
    assert bs == lo + [bs[at]] + hi;
    forall x ensures x in lo + hi <==> x in SetOf(bs) - {bs[at]} {
      assert x in bs <==> x in lo || x == bs[at] || x in hi;
    }
  }

  ghost predicate AllowedAll(s: Listing, head: int, ops: seq<Op>)
    requires Inv(s.info, s.offs, head, s.blocks)
    decreases |ops|
  {
    ops == [] || (Allowed(s, head, ops[0]) && (ApplyKeeps(s, head, ops[0]); AllowedAll(Apply(s, head, ops[0]), head, ops[1..])))
  }

  /** A whole run. */
  ghost function Run(s: Listing, head: int, ops: seq<Op>): Listing
    requires Inv(s.info, s.offs, head, s.blocks) && AllowedAll(s, head, ops)
    decreases |ops|
  {
    if ops == [] then s else (ApplyKeeps(s, head, ops[0]); Run(Apply(s, head, ops[0]), head, ops[1..]))
  }

  function ListedAll(have: set<int>, ops: seq<Op>): set<int>
    decreases |ops|
  {
    if ops == [] then have else ListedAll(Listed(have, ops[0]), ops[1..])
  }

  /** After any run every level is sorted and linked, and the bottom one links exactly the blocks inserted and not since
      removed, besides those linked at the start. */
  lemma {:induction false} RunKeeps(s: Listing, head: int, ops: seq<Op>)
    requires Inv(s.info, s.offs, head, s.blocks) && AllowedAll(s, head, ops)
    ensures var r := Run(s, head, ops);
      && Inv(r.info, r.offs, head, r.blocks)
      && SetOf(Level(r.info, r.blocks, LEVELS - 1)) == ListedAll(SetOf(s.blocks), ops)
    decreases |ops|
  {
    hide Inv, Apply, SetOf, Allowed, Level;
    if ops == [] {
      Bottom(s.info, s.offs, head, s.blocks);
    } else {
      ApplyKeeps(s, head, ops[0]);
      RunKeeps(Apply(s, head, ops[0]), head, ops[1..]);
    }
  }

  lemma Bottom(info: Infos, offs: Offsets, head: int, bs: seq<int>)
    requires Inv(info, offs, head, bs)
    ensures Level(info, bs, LEVELS - 1) == bs
  {
    BottomIsAll(info, bs);
  }

  // ----- in place -----

  function Zeros(): (r: seq<int>) ensures |r| == LEVELS { [0, 0, 0, 0, 0, 0, 0, 0, 0, 0, 0, 0, 0] }

  /** The list in memory: its head block and what every block holds. */
  class Index {
    const head: int
    var info: Infos
    var offs: Offsets
    ghost var blocks: seq<int>    // the blocks linked, in order

    ghost predicate Valid()
      reads this
    {
      Inv(info, offs, head, blocks)
    }

    /** An empty list: the head block with all levels and no successor on any. */
    constructor (head: int, info: Infos, offs: Offsets)
      ensures Valid() && blocks == [head] && this.head == head
      ensures this.info == info[head := Info(0, LEVELS, 0, 0)] && this.offs == offs[head := Zeros()]
    {
      this.head, this.info, this.offs, blocks := head, info[head := Info(0, LEVELS, 0, 0)], offs[head := Zeros()], [head];
      new;
      forall lev | 0 <= lev < LEVELS ensures Chain(this.offs, Level(this.info, blocks, lev), lev) {
        LevelOne(this.info, head, lev);
      }
    }

    /** Walks one level from the head to the last block smaller than size. */
    method FindOnIndex(size: nat, lev: nat) returns (pos: int)
      requires Ordered(info, offs, head, blocks) && (lev < LEVELS ==> Chain(offs, Level(info, blocks, lev), lev))
      ensures size == 0 || lev >= LEVELS ==> pos == head
      ensures size > 0 && lev < LEVELS
        ==> Below(info, Level(info, blocks, lev), size) > 0 && pos == Place(info, blocks, lev, size)
    {
      hide Level, Chain, Distinct, Below, Place, Ascending, Single;
      LevelFacts(info, offs, head, blocks, lev);
      ghost var l := Level(info, blocks, lev);
      ghost var j := 0;
      var curr, prev := head, head;
      while info[curr].size < size
        invariant 0 <= j < |l| && curr == l[j] && prev == l[if j > 0 then j - 1 else 0]
        invariant lev >= LEVELS ==> j == 0
        invariant forall i :: 0 <= i < j ==> info[l[i]].size < size
        decreases |l| - j
      {
        prev := curr;
        if lev < LEVELS { ChainAt(offs, l, lev, j); }
        if lev >= LEVELS || offs[curr][lev] == 0 {
          break;
        }
        curr := curr + offs[curr][lev];
        j := j + 1;
      }
      if size > 0 && lev < LEVELS {
        PlaceIs(info, blocks, lev, size, if info[curr].size < size then j + 1 else j);
      }
      var found := info[curr];
      pos := if found.size == size && found.succ != 0 then curr + found.succ else prev;
    }

    /** Links b behind pos on a level. */
    method LinkAt(lev: nat, pos: int, b: int)
      requires lev < LEVELS && pos in offs && b in offs && |offs[pos]| == |offs[b]| == LEVELS
      modifies this`offs
      ensures offs == Link(old(offs), lev, pos, b)
    {
      if offs[pos][lev] != 0 {
        offs := offs[b := offs[b][lev := offs[pos][lev] - (b - pos)]];
      } else {
        offs := offs[b := offs[b][lev := 0]];
      }
      offs := offs[pos := offs[pos][lev := b - pos]];
    }

    /** Links prev past b on a level. */
    method UnlinkAt(lev: nat, prev: int, b: int)
      requires lev < LEVELS && prev in offs && b in offs && |offs[prev]| == |offs[b]| == LEVELS
      modifies this`offs
      ensures offs == Unlink(old(offs), lev, prev, b)
    {
      if offs[b][lev] != 0 {
        offs := offs[prev := offs[prev][lev := offs[prev][lev] + offs[b][lev]]];
      } else {
        offs := offs[prev := offs[prev][lev := 0]];
      }
    }

    /** Inserts b, the level drawn for it given. */
    method Insert(b: int, level: nat)
      requires Valid() && b in info && Insertable(Leveled(info, b, level), offs, blocks, b)
      modifies this
      ensures Valid() && info == Leveled(old(info), b, level) && blocks == Added(info, old(blocks), b)
      ensures Ordered(info, old(offs), head, old(blocks)) && offs == Inserted(info, old(offs), head, old(blocks), b)
    {
      hide Inv, Ordered, Level, Below, Chains, Added, Link, LinkFrom, Place, Inserted, Insertable, Chain, Single;
      InsertableIn(info, offs, blocks, b, level);
      LeveledKeeps(info, offs, head, blocks, b, level);
      info := info[b := info[b].(level := level)];
      LinkStart(info, offs, head, blocks, b);
      var size, lev := info[b].size, LEVELS - level;
      ghost var before := offs;
      while lev < LEVELS
        invariant lev <= LEVELS && info == Leveled(old(info), b, level) && blocks == old(blocks) && In(info, blocks)
        invariant Ordered(info, offs, head, blocks) && b in offs && |offs[b]| == LEVELS
        invariant Insertable(info, offs, blocks, b) && Chains(info, offs, blocks, lev)
        invariant LinkFrom(info, offs, head, blocks, b, lev) == Inserted(info, before, head, blocks, b)
      {
        LinkTurn(info, offs, head, blocks, b, lev);
        var pos := FindOnIndex(size, lev);
        LinkAt(lev, pos, b);
        lev := lev + 1;
      }
      LinkDone(info, offs, head, blocks, b, lev);
      InsertKeeps(info, before, head, blocks, b);
      blocks := Added(info, blocks, b);
    }

    /** Removes a block other than the head. */
    method Remove(b: int)
      requires Valid() && b in blocks && b != head
      modifies this`offs, this`blocks
      ensures Valid() && blocks == Dropped(old(blocks), b)
      ensures b in info && b in old(offs) && |old(offs)[b]| == LEVELS && info[b].size > 1
      ensures offs == Removed(info, old(offs), head, old(blocks), b)
    {
      hide Inv, Ordered, Level, Below, Chains, Unlink, UnlinkFrom, Place, Removed, Where, Chain, Single;
      UnlinkStart(info, offs, head, blocks, b);
      var size, lev := info[b].size, LEVELS - info[b].level;
      ghost var before := offs;
      while lev < LEVELS
        invariant lev <= LEVELS && blocks == old(blocks) && b in offs && |offs[b]| == LEVELS && In(info, blocks)
        invariant Ordered(info, offs, head, blocks) && Chains(info, offs, blocks, lev)
        invariant UnlinkFrom(info, offs, head, blocks, b, lev) == Removed(info, before, head, blocks, b)
      {
        UnlinkTurn(info, offs, head, blocks, b, lev);
        var prev := FindOnIndex(size - 1, lev);
        UnlinkAt(lev, prev, b);
        lev := lev + 1;
      }
      UnlinkDone(info, offs, head, blocks, b, lev);
      ghost var n := Where(blocks, b);
      RemoveKeeps(info, before, head, blocks[..n], blocks[n + 1..], b);
      blocks := Dropped(blocks, b);
    }
  }

  lemma InsertableIn(info: Infos, offs: Offsets, bs: seq<int>, b: int, level: nat)
    requires b in info && Insertable(Leveled(info, b, level), offs, bs, b)
    ensures b in offs && |offs[b]| == LEVELS && b !in bs && 1 <= level <= LEVELS
  {
  }

  lemma LinkStart(info: Infos, offs: Offsets, head: int, bs: seq<int>, b: int)
    requires Inv(info, offs, head, bs) && Insertable(info, offs, bs, b)
    ensures b in info && b in offs && |offs[b]| == LEVELS && info[b].size > 1 && In(info, bs)
    ensures Ordered(info, offs, head, bs) && Chains(info, offs, bs, FirstLevel(info, b))
    ensures LinkFrom(info, offs, head, bs, b, FirstLevel(info, b)) == Inserted(info, offs, head, bs, b)
  {
    hide LinkFrom, Level, Chain;
  }

  lemma UnlinkStart(info: Infos, offs: Offsets, head: int, bs: seq<int>, b: int)
    requires Inv(info, offs, head, bs) && b in bs && b != head
    ensures var n := Where(bs, b); n > 0 && bs == bs[..n] + [b] + bs[n + 1..]
    ensures b in info && b in offs && |offs[b]| == LEVELS && info[b].size > 1 && In(info, bs) && info[b].level <= LEVELS
    ensures Ordered(info, offs, head, bs) && Chains(info, offs, bs, LEVELS - info[b].level)
    ensures UnlinkFrom(info, offs, head, bs, b, LEVELS - info[b].level) == Removed(info, offs, head, bs, b)
  {
    hide UnlinkFrom, Level, Chain, Where;
    CutAt(info, offs, head, bs, b);
  }

  lemma LinkTurn(info: Infos, offs: Offsets, head: int, bs: seq<int>, b: int, lev: nat)
    requires Ordered(info, offs, head, bs) && Insertable(info, offs, bs, b) && lev < LEVELS
      && Chains(info, offs, bs, lev)
    ensures Below(info, Level(info, bs, lev), info[b].size) > 0
    ensures var pos := Place(info, bs, lev, info[b].size);
      && Chain(offs, Level(info, bs, lev), lev) && pos in offs && |offs[pos]| == LEVELS
      && var o := Link(offs, lev, pos, b);
      && Ordered(info, o, head, bs) && Insertable(info, o, bs, b) && b in o && |o[b]| == LEVELS
      && Chains(info, o, bs, lev + 1)
      && LinkFrom(info, o, head, bs, b, lev + 1) == LinkFrom(info, offs, head, bs, b, lev)
  {
    hide Level, Below, Link, Framed, OnlyLevel, Place, Ordered, Chain;
    Placed(info, offs, head, bs, lev, info[b].size);
    var pos := Place(info, bs, lev, info[b].size);
    LinkFrame(info, offs, bs, b, lev, pos);
    ShapeKept(info, offs, Link(offs, lev, pos, b), head, bs, b, lev);
    ChainsStep(info, offs, Link(offs, lev, pos, b), bs, lev);
  }

  lemma LinkDone(info: Infos, offs: Offsets, head: int, bs: seq<int>, b: int, lev: nat)
    requires Ordered(info, offs, head, bs) && b in info && b in offs && |offs[b]| == LEVELS && info[b].size > 1
      && lev >= LEVELS
    ensures LinkFrom(info, offs, head, bs, b, lev) == offs
  {
  }

  lemma UnlinkTurn(info: Infos, offs: Offsets, head: int, bs: seq<int>, b: int, lev: nat)
    requires Ordered(info, offs, head, bs) && b in info && b in offs && |offs[b]| == LEVELS && info[b].size > 1
    requires lev < LEVELS && In(info, bs) && Chains(info, offs, bs, lev)
    ensures Below(info, Level(info, bs, lev), info[b].size - 1) > 0
    ensures var prev := Place(info, bs, lev, info[b].size - 1);
      && Chain(offs, Level(info, bs, lev), lev) && prev in offs && |offs[prev]| == LEVELS
      && var o := Unlink(offs, lev, prev, b);
      && Ordered(info, o, head, bs) && b in o && |o[b]| == LEVELS && Chains(info, o, bs, lev + 1)
      && UnlinkFrom(info, o, head, bs, b, lev + 1) == UnlinkFrom(info, offs, head, bs, b, lev)
  {
    hide Level, Below, Unlink, Framed, OnlyLevel, Place, Ordered, Chain;
    Placed(info, offs, head, bs, lev, info[b].size - 1);
    var prev := Place(info, bs, lev, info[b].size - 1);
    LinkFrame(info, offs, bs, b, lev, prev);
    ShapeKept(info, offs, Unlink(offs, lev, prev, b), head, bs, b, lev);
    ChainsStep(info, offs, Unlink(offs, lev, prev, b), bs, lev);
  }

  lemma UnlinkDone(info: Infos, offs: Offsets, head: int, bs: seq<int>, b: int, lev: nat)
    requires Ordered(info, offs, head, bs) && b in info && b in offs && |offs[b]| == LEVELS && info[b].size > 1
      && lev >= LEVELS
    ensures UnlinkFrom(info, offs, head, bs, b, lev) == offs
  {
  }

  lemma PlaceIs(info: Infos, bs: seq<int>, lev: nat, size: nat, j: nat)
    requires In(info, bs) && In(info, Level(info, bs, lev)) && 0 < j <= |Level(info, bs, lev)|
    requires forall i :: 0 <= i < j ==> info[Level(info, bs, lev)[i]].size < size
    requires j < |Level(info, bs, lev)| ==> info[Level(info, bs, lev)[j]].size >= size
    ensures Below(info, Level(info, bs, lev), size) == j && Place(info, bs, lev, size) == Level(info, bs, lev)[j - 1]
  {
    hide Level;
  }

  lemma LevelFacts(info: Infos, offs: Offsets, head: int, bs: seq<int>, lev: nat)
    requires Ordered(info, offs, head, bs)
    ensures var l := Level(info, bs, lev);
      && In(info, l) && Distinct(l) && l != [] && l[0] == head && info[head].size == 0
      && forall j :: 0 <= j < |l| ==> l[j] in offs && |offs[l[j]]| == LEVELS && info[l[j]].succ == 0
  {
    hide Level;
    LevelDistinct(info, bs, lev);
    LevelSizes(info, bs, lev, 0);
    HeadFirst(info, offs, head, bs, lev);
    var l := Level(info, bs, lev);
    forall j | 0 <= j < |l| ensures l[j] in offs && |offs[l[j]]| == LEVELS && info[l[j]].succ == 0 {
      assert l[j] in bs;
    }
  }

  /** Following a level's offset from one block reaches the next, and 0 ends the level. */
  lemma ChainAt(offs: Offsets, l: seq<int>, lev: nat, j: nat)
    requires lev < LEVELS && Chain(offs, l, lev) && Distinct(l) && j < |l|
    ensures l[j] in offs && |offs[l[j]]| == LEVELS && (offs[l[j]][lev] == 0 <==> j + 1 == |l|)
    ensures j + 1 < |l| ==> l[j] + offs[l[j]][lev] == l[j + 1]
  {
  }
}
