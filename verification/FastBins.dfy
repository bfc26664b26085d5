/**
 The fast bins of the allocator: in-band free lists of small blocks, fed from the top of a remainder region.
 Positions are offsets into the pool's buffer; 0 is NULL.
 */
module FastBins {
  import opened Bytes

  const PAYLOAD: nat := 8           // block_payload_offset
  const HEAD: nat := 4              // sizeof (block_head_t)
  const FAST_MAX: nat := 64

  /** mem_pool_t, its buffer included. */
  datatype Pool = Pool(mem: seq<byte>, free: int, head: nat, end: nat, bins: seq<nat>)

  // ----- words in the buffer -----

  function Read(m: seq<byte>, p: nat, n: nat): nat
    requires p + n <= |m|
  {
    FromLe(m[p..p + n])
  }

  function Write(m: seq<byte>, p: nat, bytes: seq<byte>): (r: seq<byte>)
    requires p + |bytes| <= |m|
    ensures |r| == |m|
  {
    m[..p] + bytes + m[p + |bytes|..]
  }

  function Zeros(n: nat): (r: seq<byte>)
    ensures |r| == n
  {
    seq(n, i => 0)
  }

  // A head is a size with the flags A (allocated) and P (previous block allocated) in its low bits.

  function SizeOf(v: u32): nat { v - v % 4 }

  predicate IsAllocated(v: u32) { v % 2 == 1 }

  predicate PrevAllocated(v: u32) { v / 2 % 2 == 1 }

  function SetSize(v: u32, size: u32): nat
    requires size % 4 == 0
  {
    v % 4 + size
  }

  function SetFlags(v: u32, a: bool, p: bool): u32 { SizeOf(v) + (if p then 2 else 0) + (if a then 1 else 0) }

  function SetA(v: u32, a: bool): u32 { v - v % 2 + (if a then 1 else 0) }

  function Align(n: nat): nat { (n + 7) / 8 * 8 }

  /** The head at a position, as the code reads it. */
  function HeadOf(m: seq<byte>, at: nat): u32
    requires at + HEAD <= |m|
  {
    FromLeWidths(m[at..at + HEAD]);
    Read(m, at, HEAD)
  }

  /** A block the code may touch: its head, a link, and as many payload bytes as the head says, inside the buffer. */
  predicate Reachable(m: seq<byte>, at: nat)
  {
    at + PAYLOAD + 8 <= |m| && at + PAYLOAD + SizeOf(HeadOf(m, at)) <= |m|
  }

  /** What the code dereferences is inside the buffer. */
  predicate Sound(s: Pool)
  {
    && |s.bins| == 8 && HEAD <= s.head && s.head + HEAD <= s.end <= |s.mem| < 0x1_0000_0000
    && forall k :: 0 <= k < 8 && s.bins[k] != 0 ==> Reachable(s.mem, s.bins[k])
  }

  // ----- deep_malloc and deep_free for small blocks -----

  datatype Got = Got(s: Pool, p: nat)   // p: the payload's position, 0 for NULL

  /** The common end of deep_malloc_fast_bins: the payload cleared, the flags set, the size accounted for. */
  function Finish(s: Pool, at: nat, n: nat, p: bool): Got
    requires at + PAYLOAD + n <= |s.mem|
  {
    var m := Write(s.mem, at + PAYLOAD, Zeros(n));
    var v := HeadOf(m, at);
    Got(s.(mem := Write(m, at, Le(SetFlags(v, true, p), HEAD)), free := s.free - n), at + PAYLOAD)
  }

  /** Taking the first block of a bin. */
  function Pop(s: Pool, k: nat): Got
    requires Sound(s) && k < 8 && s.bins[k] != 0
  {
    var at := s.bins[k];
    var v := HeadOf(s.mem, at);
    Finish(s.(bins := s.bins[k := Read(s.mem, at + PAYLOAD, 8)]), at, SizeOf(v), PrevAllocated(v))
  }

  /** The buffer once the remainder's head records what the carve leaves. */
  function Shrunk(s: Pool, aligned: nat): (m: seq<byte>)
    requires Sound(s) && aligned % 4 == 0
    ensures |m| == |s.mem|
  {
    var h := HeadOf(s.mem, s.head);
    Write(s.mem, s.head, Le(SetSize(h, Wrap32(SizeOf(h) - aligned - HEAD)), HEAD))
  }

  /** Carving a block off the top of the remainder. */
  function Carve(s: Pool, aligned: nat): Got
    requires Sound(s) && 16 <= aligned <= FAST_MAX && aligned % 8 == 0 && aligned <= s.end - s.head
  {
    var at, m := s.end - aligned - HEAD, Shrunk(s, aligned);
    var v := HeadOf(m, at);
    Finish(s.(mem := Write(m, at, Le(SetSize(v, aligned - PAYLOAD), HEAD)), end := at), at, aligned - PAYLOAD, false)
  }

  /** deep_malloc for the sizes the fast bins serve. */
  function Malloc(s: Pool, size: nat): Got
    requires Sound(s) && size <= FAST_MAX - PAYLOAD
  {
    if s.free < size || size == 0 then Got(s, 0)
    else
      var aligned := Align(size + PAYLOAD);
      var k := aligned / 8 - 1;
      if s.bins[k] != 0 then Pop(s, k)
      else if aligned <= s.end - s.head then Carve(s, aligned)
      else Got(s, 0)
  }

  /** deep_free of a small block's payload; a block that is not allocated is left alone. */
  function Free(s: Pool, p: nat): Pool
    requires |s.bins| == 8 && PAYLOAD <= p && Reachable(s.mem, p - PAYLOAD)
  {
    var at := p - PAYLOAD;
    var v := HeadOf(s.mem, at);
    if !IsAllocated(v) || SizeOf(v) + PAYLOAD > FAST_MAX then s
    else
      var n, k := SizeOf(v), (SizeOf(v) + PAYLOAD) / 8 - 1;
      var m := Write(s.mem, p, Zeros(n));
      var m' := Write(m, at, Le(SetA(v, false), HEAD));
      var m'' := if s.bins[k] != 0 then Write(m', p, Le(s.bins[k], 8)) else m';
      s.(mem := m'', free := s.free + n, bins := s.bins[k := at])
  }

  /** Freeing the payload of the block at a position. */
  function FreeBlock(s: Pool, at: nat): Pool
    requires |s.bins| == 8 && Reachable(s.mem, at)
  {
    Free(s, at + PAYLOAD)
  }

  // ----- what the buffer holds -----

  /** A block carved at some time: its position, its payload size, and whether it is allocated now. */
  datatype Block = Block(at: nat, size: nat, live: bool)

  /** All blocks in the order they were carved, and each bin's free list as indices into them. */
  datatype Shadow = Shadow(blocks: seq<Block>, lists: seq<seq<nat>>)

  /** Blocks lie in [end, top), the later ones lower, none overlapping another. */
  ghost predicate Apart(bs: seq<Block>, end: nat, top: nat)
  {
    && (forall i :: 0 <= i < |bs| ==>
          8 <= bs[i].size <= 56 && bs[i].size % 8 == 0 && end <= bs[i].at && bs[i].at + PAYLOAD + bs[i].size + HEAD <= top)
    && (forall i, j :: 0 <= i < j < |bs| ==> bs[j].at + PAYLOAD + bs[j].size + HEAD <= bs[i].at)
  }

  ghost predicate Heads(m: seq<byte>, bs: seq<Block>)
  {
    forall i :: 0 <= i < |bs| ==> bs[i].at + HEAD <= |m| && Read(m, bs[i].at, HEAD) == bs[i].size + (if bs[i].live then 1 else 0)
  }

  /** The remainder's head records the distance to its end, less the payload offset. */
  ghost predicate Recorded(s: Pool)
  {
    s.head + PAYLOAD <= s.end <= |s.mem| && (s.end - s.head) % 4 == 0 && Read(s.mem, s.head, HEAD) == s.end - s.head - PAYLOAD + 2
  }

  function Link(bs: seq<Block>, list: seq<nat>, j: nat): nat
    requires forall a :: 0 <= a < |list| ==> list[a] < |bs|
  {
    if j < |list| then bs[list[j]].at else 0
  }

  /** The list names exactly the free blocks of bin k's size, each once. */
  ghost predicate Lists(bs: seq<Block>, list: seq<nat>, k: nat)
  {
    && (forall a :: 0 <= a < |list| ==> list[a] < |bs| && !bs[list[a]].live && bs[list[a]].size == 8 * k)
    && (forall i :: 0 <= i < |bs| && !bs[i].live && bs[i].size == 8 * k ==> i in list)
    && (forall a, b :: 0 <= a < b < |list| ==> list[a] != list[b])
  }

  /** The j-th block of the list links to the next. */
  ghost predicate Linked(m: seq<byte>, bs: seq<Block>, list: seq<nat>, j: nat)
    requires forall a :: 0 <= a < |list| ==> list[a] < |bs|
    requires j < |list|
  {
    bs[list[j]].at + 16 <= |m| && Read(m, bs[list[j]].at + PAYLOAD, 8) == Link(bs, list, j + 1)
  }

  /** Bin k's chain in the buffer runs through its list. */
  ghost predicate Chained(m: seq<byte>, first: nat, bs: seq<Block>, list: seq<nat>, k: nat)
  {
    Lists(bs, list, k) && first == Link(bs, list, 0) && forall j :: 0 <= j < |list| ==> Linked(m, bs, list, j)
  }

  ghost predicate Binned(m: seq<byte>, bins: seq<nat>, g: Shadow)
  {
    |g.lists| == |bins| == 8 && forall k :: 0 <= k < 8 ==> Chained(m, bins[k], g.blocks, g.lists[k], k)
  }

  function LiveSum(bs: seq<Block>): int
  {
    if bs == [] then 0 else LiveSum(bs[..|bs| - 1]) + (if bs[|bs| - 1].live then bs[|bs| - 1].size else 0)
  }

  /** The invariant of every run; top and total are the pool's end and its free memory at the start. */
  ghost predicate Inv(s: Pool, g: Shadow, top: nat, total: int)
  {
    && Sound(s) && s.end <= top <= |s.mem|
    && Apart(g.blocks, s.end, top) && Heads(s.mem, g.blocks) && Recorded(s) && Binned(s.mem, s.bins, g)
    && s.free + LiveSum(g.blocks) == total
  }

  // ----- reading after writing -----

  /** The buffers agree outside [lo, hi). */
  ghost predicate SameOutside(m: seq<byte>, m': seq<byte>, lo: nat, hi: nat)
  {
    |m| == |m'| && forall x :: 0 <= x < |m| && (x < lo || hi <= x) ==> m[x] == m'[x]
  }

  lemma ReadOutside(m: seq<byte>, m': seq<byte>, lo: nat, hi: nat, p: nat, n: nat)
    requires SameOutside(m, m', lo, hi) && p + n <= |m| && (p + n <= lo || hi <= p)
    ensures Read(m', p, n) == Read(m, p, n) && m'[p..p + n] == m[p..p + n]
  {
    assert m'[p..p + n] == m[p..p + n];
  }

  lemma WriteOutside(m: seq<byte>, p: nat, bytes: seq<byte>, lo: nat, hi: nat)
    requires lo <= p && p + |bytes| <= hi && p + |bytes| <= |m|
    ensures SameOutside(m, Write(m, p, bytes), lo, hi)
    ensures Write(m, p, bytes)[p..p + |bytes|] == bytes
  {
  }

  lemma OutsideTrans(a: seq<byte>, b: seq<byte>, c: seq<byte>, lo: nat, hi: nat)
    requires SameOutside(a, b, lo, hi) && SameOutside(b, c, lo, hi)
    ensures SameOutside(a, c, lo, hi)
  {
  }

  lemma ReadWord(m: seq<byte>, p: nat, v: nat, n: nat)
    requires p + n <= |m| && ((n == 4 && v < 0x1_0000_0000) || (n == 8 && v < 0x1_0000_0000_0000_0000))
    ensures Read(Write(m, p, Le(v, n)), p, n) == v
  {
    hide Le, FromLe;
    LeRoundTrip(v);
    assert Write(m, p, Le(v, n))[p..p + n] == Le(v, n);
  }

  /** What Finish does: only the block's head and payload change. */
  lemma FinishIs(s: Pool, at: nat, n: nat, p: bool)
    requires at + PAYLOAD + n <= |s.mem|
    ensures var r := Finish(s, at, n, p);
      && r.p == at + PAYLOAD && r.s == s.(mem := r.s.mem, free := s.free - n)
      && SameOutside(s.mem, r.s.mem, at, at + PAYLOAD + n)
      && r.s.mem[at + PAYLOAD..at + PAYLOAD + n] == Zeros(n)
      && Read(r.s.mem, at, HEAD) == SizeOf(HeadOf(s.mem, at)) + (if p then 3 else 1)
  {
    hide Write, Read, SetFlags, Le, Zeros, SizeOf;
    var m := Write(s.mem, at + PAYLOAD, Zeros(n));
    WriteOutside(s.mem, at + PAYLOAD, Zeros(n), at + HEAD, at + PAYLOAD + n);
    ReadOutside(s.mem, m, at + HEAD, at + PAYLOAD + n, at, HEAD);
    HeadFits(m, at);
    var v := HeadOf(m, at);
    var m' := Write(m, at, Le(SetFlags(v, true, p), HEAD));
    WriteOutside(m, at, Le(SetFlags(v, true, p), HEAD), at, at + HEAD);
    ReadWord(m, at, SetFlags(v, true, p), HEAD);
    FlagsAre(v, p);
    OutsideWider(s.mem, m, at + HEAD, at + PAYLOAD + n, at, at + PAYLOAD + n);
    OutsideWider(m, m', at, at + HEAD, at, at + PAYLOAD + n);
    OutsideTrans(s.mem, m, m', at, at + PAYLOAD + n);
    ReadOutside(m, m', at, at + HEAD, at + PAYLOAD, n);
  }

  lemma OutsideWider(a: seq<byte>, b: seq<byte>, lo: nat, hi: nat, lo': nat, hi': nat)
    requires SameOutside(a, b, lo, hi) && lo' <= lo && hi <= hi'
    ensures SameOutside(a, b, lo', hi')
  {
  }

  lemma HeadFits(m: seq<byte>, at: nat)
    requires at + HEAD <= |m|
    ensures Read(m, at, HEAD) < 0x1_0000_0000 && HeadOf(m, at) == Read(m, at, HEAD)
  {
    FromLeWidths(m[at..at + HEAD]);
  }

  lemma FlagsAre(v: u32, p: bool)
    ensures SetFlags(v, true, p) == SizeOf(v) + (if p then 3 else 1) < 0x1_0000_0000
  {
  }

  // ----- one block changes -----

  /** Changing bytes only inside block i's head and payload leaves the other heads and chains alone. */
  lemma OthersKept(m: seq<byte>, m': seq<byte>, bs: seq<Block>, end: nat, top: nat, i: nat, j: nat)
    requires Apart(bs, end, top) && top <= |m| && i < |bs| && j < |bs| && i != j
    requires SameOutside(m, m', bs[i].at, bs[i].at + PAYLOAD + bs[i].size)
    ensures bs[j].at + 16 <= |m|
    ensures Read(m', bs[j].at, HEAD) == Read(m, bs[j].at, HEAD)
      && Read(m', bs[j].at + PAYLOAD, 8) == Read(m, bs[j].at + PAYLOAD, 8)
    ensures m'[bs[j].at + PAYLOAD..bs[j].at + PAYLOAD + bs[j].size]
      == m[bs[j].at + PAYLOAD..bs[j].at + PAYLOAD + bs[j].size]
  {
    hide Read;
    var lo, hi := bs[i].at, bs[i].at + PAYLOAD + bs[i].size;
    ReadOutside(m, m', lo, hi, bs[j].at, HEAD);
    ReadOutside(m, m', lo, hi, bs[j].at + PAYLOAD, 8);
    ReadOutside(m, m', lo, hi, bs[j].at + PAYLOAD, bs[j].size);
  }

  ghost function Flip(bs: seq<Block>, i: nat): seq<Block>
    requires i < |bs|
  {
    bs[i := bs[i].(live := !bs[i].live)]
  }

  /** A link out of another block, into one that has not moved. */
  lemma LinkedKept(m: seq<byte>, m': seq<byte>, bs: seq<Block>, end: nat, top: nat, i: nat, list: seq<nat>, j: nat)
    requires Apart(bs, end, top) && top <= |m| && i < |bs|
    requires SameOutside(m, m', bs[i].at, bs[i].at + PAYLOAD + bs[i].size)
    requires forall a :: 0 <= a < |list| ==> list[a] < |bs|
    requires j < |list| && list[j] != i && Linked(m, bs, list, j)
    ensures Linked(m', Flip(bs, i), list, j)
  {
    hide Read, Apart;
    OthersKept(m, m', bs, end, top, i, list[j]);
    LinkFlip(bs, i, list, j + 1);
  }

  lemma LinkFlip(bs: seq<Block>, i: nat, list: seq<nat>, j: nat)
    requires i < |bs| && forall a :: 0 <= a < |list| ==> list[a] < |bs|
    ensures Link(Flip(bs, i), list, j) == Link(bs, list, j)
  {
  }

  /** A bin of another size than block i's. */
  lemma ChainKept(m: seq<byte>, m': seq<byte>, bs: seq<Block>, end: nat, top: nat, i: nat, first: nat, list: seq<nat>,
      k: nat)
    requires Apart(bs, end, top) && top <= |m| && i < |bs| && Chained(m, first, bs, list, k) && bs[i].size != 8 * k
    requires SameOutside(m, m', bs[i].at, bs[i].at + PAYLOAD + bs[i].size)
    ensures Chained(m', first, Flip(bs, i), list, k)
  {
    hide Read, SameOutside, Apart, Linked, Link;
    ListsFlip(bs, i, list, k);
    LinkFlip(bs, i, list, 0);
    forall j | 0 <= j < |list| ensures Linked(m', Flip(bs, i), list, j) {
      LinkedKept(m, m', bs, end, top, i, list, j);
    }
  }

  lemma ListsFlip(bs: seq<Block>, i: nat, list: seq<nat>, k: nat)
    requires i < |bs| && Lists(bs, list, k) && bs[i].size != 8 * k
    ensures Lists(Flip(bs, i), list, k)
    ensures forall a :: 0 <= a < |list| ==> list[a] != i
  {
  }

  lemma SameLengths(m: seq<byte>, m': seq<byte>, lo: nat, hi: nat)
    requires SameOutside(m, m', lo, hi)
    ensures |m| == |m'|
  {
  }

  lemma HeadsKept(m: seq<byte>, m': seq<byte>, bs: seq<Block>, end: nat, top: nat, i: nat)
    requires Apart(bs, end, top) && top <= |m| && i < |bs| && Heads(m, bs)
    requires SameOutside(m, m', bs[i].at, bs[i].at + PAYLOAD + bs[i].size)
    requires bs[i].at + HEAD <= |m'| && Read(m', bs[i].at, HEAD) == bs[i].size + (if bs[i].live then 0 else 1)
    ensures Heads(m', Flip(bs, i)) && Apart(Flip(bs, i), end, top)
  {
    hide Read;
    var bs' := Flip(bs, i);
    forall j | 0 <= j < |bs| ensures bs'[j].at + HEAD <= |m'| && Read(m', bs'[j].at, HEAD) == bs'[j].size + (if bs'[j].live then 1 else 0) {
      if j != i { OthersKept(m, m', bs, end, top, i, j); }
    }
  }

  lemma {:induction false} LiveSumFlip(bs: seq<Block>, i: nat)
    requires i < |bs|
    ensures bs[i].live ==> LiveSum(Flip(bs, i)) == LiveSum(bs) - bs[i].size
    ensures !bs[i].live ==> LiveSum(Flip(bs, i)) == LiveSum(bs) + bs[i].size
    decreases |bs|
  {
    var n := |bs| - 1;
    if i < n {
      assert Flip(bs, i)[..n] == Flip(bs[..n], i);
      LiveSumFlip(bs[..n], i);
    } else {
      assert Flip(bs, i)[..n] == bs[..n];
    }
  }

  lemma RecordedKept(s: Pool, s': Pool, lo: nat, hi: nat)
    requires Recorded(s) && s'.head == s.head && s'.end == s.end && SameOutside(s.mem, s'.mem, lo, hi) && s.end <= lo
    ensures Recorded(s')
  {
    ReadOutside(s.mem, s'.mem, lo, hi, s.head, HEAD);
  }

  // ----- taking a free block -----

  /** Taking the first block of bin k: it is a free block of exactly that size, and only it changes. */
  lemma PopKeeps(s: Pool, g: Shadow, top: nat, total: int, k: nat) returns (i: nat, g': Shadow)
    requires Inv(s, g, top, total) && k < 8 && s.bins[k] != 0
    ensures i < |g.blocks| && !g.blocks[i].live && g.blocks[i].size == 8 * k
    ensures k < |g.lists| && g.lists[k] != [] && g' == Shadow(Flip(g.blocks, i), g.lists[k := g.lists[k][1..]])
    ensures Inv(Pop(s, k).s, g', top, total) && Given(s, Pop(s, k), g.blocks[i])
  {
    hide Read, Write, Finish, SameOutside, LiveSum, HeadOf, SizeOf, Apart, Heads, Recorded, Zeros, Chained, Flip,
      Reachable, PrevAllocated;
    var list, bs := g.lists[k], g.blocks;
    assert Chained(s.mem, s.bins[k], bs, list, k);
    i := ChainFirst(s.mem, s.bins[k], bs, list, k);
    g' := Shadow(Flip(bs, i), g.lists[k := list[1..]]);
    var b := bs[i];
    BlockHead(s.mem, bs, s.end, top, i);
    var next := Read(s.mem, b.at + PAYLOAD, 8);
    var s1 := s.(bins := s.bins[k := next]);
    FinishIs(s1, b.at, b.size, false);
    var r := Pop(s, k);
    assert r == Finish(s1, b.at, b.size, false);
    SameLengths(s.mem, r.s.mem, b.at, b.at + PAYLOAD + b.size);
    HeadsKept(s.mem, r.s.mem, bs, s.end, top, i);
    InBlocks(bs, s.end, top, i);
    RecordedKept(s, r.s, b.at, b.at + PAYLOAD + b.size);
    LiveSumFlip(bs, i);
    forall q | 0 <= q < 8 ensures Chained(r.s.mem, r.s.bins[q], g'.blocks, g'.lists[q], q) {
      assert Chained(s.mem, s.bins[q], bs, g.lists[q], q);
      if q == k { PopChain(s.mem, r.s.mem, bs, s.end, top, s.bins[k], list, k); }
      else { ChainKept(s.mem, r.s.mem, bs, s.end, top, i, s.bins[q], g.lists[q], q); }
    }
    SoundKept(s, r.s, g', top);
  }

  /** What the caller of malloc gets: a cleared payload; no byte outside the block has changed. */
  ghost predicate Given(s: Pool, r: Got, b: Block)
  {
    && b.at + PAYLOAD + b.size <= |r.s.mem| && r.p == b.at + PAYLOAD && r.s.mem[r.p..r.p + b.size] == Zeros(b.size)
    && SameOutside(s.mem, r.s.mem, b.at, b.at + PAYLOAD + b.size)
  }

  lemma ChainFirst(m: seq<byte>, first: nat, bs: seq<Block>, list: seq<nat>, k: nat) returns (i: nat)
    requires Chained(m, first, bs, list, k) && first != 0
    ensures list != [] && i == list[0] < |bs| && !bs[i].live && bs[i].size == 8 * k && first == bs[i].at
  {
    i := list[0];
  }

  lemma InBlocks(bs: seq<Block>, end: nat, top: nat, i: nat)
    requires Apart(bs, end, top) && i < |bs|
    ensures 8 <= bs[i].size <= 56 && bs[i].size % 8 == 0 && end <= bs[i].at
      && bs[i].at + PAYLOAD + bs[i].size + HEAD <= top
  {
  }

  /** A block's head as the code reads it. */
  lemma BlockHead(m: seq<byte>, bs: seq<Block>, end: nat, top: nat, i: nat)
    requires Apart(bs, end, top) && top <= |m| && Heads(m, bs) && i < |bs|
    ensures Reachable(m, bs[i].at) && bs[i].at + PAYLOAD + bs[i].size <= |m| && bs[i].at + 16 <= |m|
    ensures var v := HeadOf(m, bs[i].at);
      SizeOf(v) == bs[i].size && !PrevAllocated(v) && (IsAllocated(v) <==> bs[i].live)
  {
    hide Read, SizeOf, PrevAllocated, IsAllocated;
    HeadFits(m, bs[i].at);
    SizeOfHead(bs[i].size, if bs[i].live then 1 else 0);
  }

  lemma SizeOfHead(size: nat, flag: nat)
    requires size % 8 == 0 && size <= 56 && flag <= 1
    ensures SizeOf(size + flag) == size && !PrevAllocated(size + flag) && (IsAllocated(size + flag) <==> flag == 1)
  {
  }

  /** The rest of a chain once its first block is taken. */
  lemma PopChain(m: seq<byte>, m': seq<byte>, bs: seq<Block>, end: nat, top: nat, first: nat, list: seq<nat>, k: nat)
    requires Apart(bs, end, top) && top <= |m| && Chained(m, first, bs, list, k) && list != []
    requires SameOutside(m, m', bs[list[0]].at, bs[list[0]].at + PAYLOAD + bs[list[0]].size)
    ensures bs[list[0]].at + 16 <= |m|
    ensures Chained(m', Read(m, bs[list[0]].at + PAYLOAD, 8), Flip(bs, list[0]), list[1..], k)
  {
    hide Read, SameOutside, Apart, Lists;
    ListsPop(bs, list, k);
    var i, bs' := list[0], Flip(bs, list[0]);
    assert Linked(m, bs, list, 0);
    LinkRest(bs, list, 0);
    LinkFlip(bs, i, list[1..], 0);
    forall j | 0 <= j < |list| - 1 ensures Linked(m', bs', list[1..], j) {
      assert Linked(m, bs, list, j + 1);
      LinkRest(bs, list, j + 1);
      LinkedKept(m, m', bs, end, top, i, list[1..], j);
    }
  }

  lemma LinkRest(bs: seq<Block>, list: seq<nat>, j: nat)
    requires list != [] && forall a :: 0 <= a < |list| ==> list[a] < |bs|
    ensures Link(bs, list[1..], j) == Link(bs, list, j + 1)
  {
  }

  lemma ListsPop(bs: seq<Block>, list: seq<nat>, k: nat)
    requires Lists(bs, list, k) && list != []
    ensures Lists(Flip(bs, list[0]), list[1..], k)
    ensures forall a :: 0 <= a < |list[1..]| ==> list[1..][a] != list[0] && list[1..][a] < |bs|
    ensures forall a :: 0 <= a < |list| ==> list[a] < |bs|
  {
    var bs' := Flip(bs, list[0]);
    forall x | 0 <= x < |bs'| && !bs'[x].live && bs'[x].size == 8 * k ensures x in list[1..] {
      var a :| 0 <= a < |list| && list[a] == x;
      assert list[1..][a - 1] == x;
    }
  }

  lemma SoundKept(s: Pool, s': Pool, g': Shadow, top: nat)
    requires Sound(s) && s'.head == s.head && s.head + HEAD <= s'.end <= |s.mem| && |s'.mem| == |s.mem|
    requires s'.end <= top <= |s.mem| && Apart(g'.blocks, s'.end, top) && Heads(s'.mem, g'.blocks)
      && Binned(s'.mem, s'.bins, g')
    ensures Sound(s')
  {
    hide Reachable, Apart, Heads, Chained;
    forall k | 0 <= k < 8 && s'.bins[k] != 0 ensures Reachable(s'.mem, s'.bins[k]) {
      assert Chained(s'.mem, s'.bins[k], g'.blocks, g'.lists[k], k);
      var i := ChainFirst(s'.mem, s'.bins[k], g'.blocks, g'.lists[k], k);
      BlockHead(s'.mem, g'.blocks, s'.end, top, i);
    }
  }

  // ----- carving a new block -----

  /** The remainder holds the block, its trailing word and its own head. */
  predicate Fits(s: Pool, aligned: nat) { s.head + aligned + HEAD + PAYLOAD <= s.end }

  lemma ShrunkIs(s: Pool, aligned: nat)
    requires Sound(s) && Recorded(s) && 16 <= aligned <= FAST_MAX && aligned % 8 == 0 && Fits(s, aligned)
    ensures SameOutside(s.mem, Shrunk(s, aligned), s.head, s.head + HEAD)
    ensures Read(Shrunk(s, aligned), s.head, HEAD) == s.end - s.head - aligned - HEAD - PAYLOAD + 2
    ensures (s.end - s.head - aligned - HEAD) % 4 == 0
  {
    hide Write, Read, Le, SetSize, SizeOf, SameOutside, Reachable;
    HeadFits(s.mem, s.head);
    var h := HeadOf(s.mem, s.head);
    RecordedCarve(s.end - s.head, aligned, h);
    var w := SetSize(h, Wrap32(SizeOf(h) - aligned - HEAD));
    WriteOutside(s.mem, s.head, Le(w, HEAD), s.head, s.head + HEAD);
    ReadWord(s.mem, s.head, w, HEAD);
  }

  /** What Carve does to the buffer: the remainder's head, and the new block, whose head and payload are set. */
  lemma CarveIs(s: Pool, aligned: nat)
    requires Sound(s) && Recorded(s) && 16 <= aligned <= FAST_MAX && aligned % 8 == 0 && Fits(s, aligned)
    ensures var r, at := Carve(s, aligned), s.end - aligned - HEAD;
      && r.s == Pool(r.s.mem, s.free - (aligned - PAYLOAD), s.head, at, s.bins) && r.p == at + PAYLOAD
      && SameOutside(s.mem, r.s.mem, 0, at + aligned) && Recorded(r.s)
      && r.s.mem[r.p..r.p + aligned - PAYLOAD] == Zeros(aligned - PAYLOAD)
      && Read(r.s.mem, at, HEAD) == aligned - PAYLOAD + 1
  {
    hide Write, Read, Le, Zeros, SetFlags, Finish, SetSize, SizeOf, SameOutside, Reachable;
    var at, n, m := s.end - aligned - HEAD, aligned - PAYLOAD, Shrunk(s, aligned);
    ShrunkIs(s, aligned);
    HeadFits(m, at);
    var v := HeadOf(m, at);
    SetSizeIs(v, n);
    var m' := Write(m, at, Le(SetSize(v, n), HEAD));
    WriteOutside(m, at, Le(SetSize(v, n), HEAD), at, at + aligned);
    ReadWord(m, at, SetSize(v, n), HEAD);
    HeadFits(m', at);
    FinishIs(s.(mem := m', end := at), at, n, false);
    var r := Carve(s, aligned);
    assert r == Finish(s.(mem := m', end := at), at, n, false);
    OutsideTrans(m, m', r.s.mem, at, at + aligned);
    OutsideWider(s.mem, m, s.head, s.head + HEAD, 0, at + aligned);
    OutsideWider(m, r.s.mem, at, at + aligned, 0, at + aligned);
    OutsideTrans(s.mem, m, r.s.mem, 0, at + aligned);
    SameLengths(m, r.s.mem, at, at + aligned);
    ReadOutside(m, r.s.mem, at, at + aligned, s.head, HEAD);
  }

  lemma SetSizeIs(v: u32, n: nat)
    requires n % 8 == 0 && n <= 56
    ensures SetSize(v, n) < 0x1_0000_0000 && SizeOf(SetSize(v, n)) == n
  {
  }

  lemma RecordedCarve(d: nat, aligned: nat, h: u32)
    requires d % 4 == 0 && aligned % 8 == 0 && aligned + HEAD + PAYLOAD <= d && h == d - PAYLOAD + 2
    ensures Wrap32(SizeOf(h) - aligned - HEAD) == d - PAYLOAD - aligned - HEAD
      && (d - PAYLOAD - aligned - HEAD) % 4 == 0
    ensures SetSize(h, Wrap32(SizeOf(h) - aligned - HEAD)) == d - aligned - HEAD - PAYLOAD + 2
  {
    LowBits(d, h);
    FourthOf(d, aligned);
    WrapSmall(d - PAYLOAD - aligned - HEAD);
  }

  lemma LowBits(d: nat, h: u32)
    requires d % 4 == 0 && d >= PAYLOAD && h == d - PAYLOAD + 2
    ensures h % 4 == 2 && SizeOf(h) == d - PAYLOAD
  {
  }

  lemma FourthOf(d: nat, aligned: nat)
    requires d % 4 == 0 && aligned % 8 == 0
    ensures (d - PAYLOAD - aligned - HEAD) % 4 == 0
  {
    var x, y := d / 4, aligned / 8;
    assert d == 4 * x && aligned == 8 * y;
    assert d - PAYLOAD - aligned - HEAD == 4 * (x - 2 * y - 3);
  }

  lemma WrapSmall(x: nat)
    requires x < 0x1_0000_0000
    ensures Wrap32(x) == x
  {
  }

  ghost function Added(g: Shadow, b: Block): Shadow { g.(blocks := g.blocks + [b]) }

  lemma ApartAdd(bs: seq<Block>, end: nat, top: nat, at: nat, size: nat)
    requires Apart(bs, end, top) && end <= top && 8 <= size <= 56 && size % 8 == 0 && at + PAYLOAD + size + HEAD == end
    ensures Apart(bs + [Block(at, size, true)], at, top)
  {
  }

  lemma HeadsAdd(m: seq<byte>, m': seq<byte>, bs: seq<Block>, end: nat, top: nat, b: Block)
    requires Apart(bs, end, top) && top <= |m| && Heads(m, bs) && SameOutside(m, m', 0, end) && b.live
    requires b.at + HEAD <= |m'| && Read(m', b.at, HEAD) == b.size + 1
    ensures Heads(m', bs + [b])
  {
    hide Read;
    var bs' := bs + [b];
    forall j | 0 <= j < |bs'| ensures bs'[j].at + HEAD <= |m'| && Read(m', bs'[j].at, HEAD) == bs'[j].size + (if bs'[j].live then 1 else 0) {
      if j < |bs| { ReadOutside(m, m', 0, end, bs[j].at, HEAD); }
    }
  }

  lemma ChainAdd(m: seq<byte>, m': seq<byte>, bs: seq<Block>, end: nat, top: nat, b: Block, first: nat, list: seq<nat>,
      k: nat)
    requires Apart(bs, end, top) && top <= |m| && Chained(m, first, bs, list, k) && SameOutside(m, m', 0, end) && b.live
    ensures Chained(m', first, bs + [b], list, k)
  {
    hide Read, SameOutside;
    var bs' := bs + [b];
    assert Lists(bs', list, k);
    forall j | 0 <= j < |list| ensures Linked(m', bs', list, j) {
      assert Linked(m, bs, list, j);
      InBlocks(bs, end, top, list[j]);
      ReadOutside(m, m', 0, end, bs[list[j]].at + PAYLOAD, 8);
      SameLengths(m, m', 0, end);
    }
  }

  /** Carving: a new block, live and cleared, below all others; the recorded size stays the distance. */
  lemma CarveKeeps(s: Pool, g: Shadow, top: nat, total: int, aligned: nat) returns (b: Block)
    requires Inv(s, g, top, total) && 16 <= aligned <= FAST_MAX && aligned % 8 == 0 && Fits(s, aligned)
    ensures b == Block(s.end - aligned - HEAD, aligned - PAYLOAD, true)
    ensures Inv(Carve(s, aligned).s, Added(g, b), top, total)
    ensures var r := Carve(s, aligned);
      b.at + PAYLOAD + b.size <= |r.s.mem| && r.p == b.at + PAYLOAD && r.s.mem[r.p..r.p + b.size] == Zeros(b.size)
      && SameOutside(s.mem, r.s.mem, 0, s.end)
  {
    hide Read, SameOutside, LiveSum, HeadOf, Apart, Heads, Recorded, Zeros, Chained, Carve, Reachable;
    b := Block(s.end - aligned - HEAD, aligned - PAYLOAD, true);
    var r, g' := Carve(s, aligned), Added(g, b);
    CarveIs(s, aligned);
    OutsideWider(s.mem, r.s.mem, 0, b.at + aligned, 0, s.end);
    SameLengths(s.mem, r.s.mem, 0, s.end);
    ApartAdd(g.blocks, s.end, top, b.at, b.size);
    HeadsAdd(s.mem, r.s.mem, g.blocks, s.end, top, b);
    forall q | 0 <= q < 8 ensures Chained(r.s.mem, r.s.bins[q], g'.blocks, g'.lists[q], q) {
      assert Chained(s.mem, s.bins[q], g.blocks, g.lists[q], q);
      ChainAdd(s.mem, r.s.mem, g.blocks, s.end, top, b, s.bins[q], g.lists[q], q);
    }
    LiveSumAdd(g.blocks, b);
    RecordedEnd(r.s);
    SoundKept(s, r.s, g', top);
  }

  lemma RecordedEnd(s: Pool)
    requires Recorded(s)
    ensures s.head + PAYLOAD <= s.end <= |s.mem|
  {
  }

  lemma LiveSumAdd(bs: seq<Block>, b: Block)
    ensures LiveSum(bs + [b]) == LiveSum(bs) + (if b.live then b.size else 0)
  {
    assert (bs + [b])[..|bs|] == bs;
  }

  /**
   Exactly when a carve the code allows keeps the record: the code's guard lets the block be as large as the
   distance, but the recorded size stays the distance less the payload offset only if head, block and trailing
   word all fit.
   */
  lemma CarveIff(s: Pool, aligned: nat)
    requires Sound(s) && Recorded(s) && 16 <= aligned <= FAST_MAX && aligned % 8 == 0 && aligned <= s.end - s.head
    ensures var r := Carve(s, aligned);
      (r.s.end >= r.s.head + PAYLOAD && Read(r.s.mem, r.s.head, HEAD) == r.s.end - r.s.head - PAYLOAD + 2) <==> Fits(s, aligned)
  {
    hide Write, Read, Zeros, Le;
    if Fits(s, aligned) { CarveIs(s, aligned); }
  }

  // ----- freeing -----

  lemma ZerosRead(m: seq<byte>, p: nat, n: nat)
    requires p + n <= |m| && n >= 8 && m[p..p + n] == Zeros(n)
    ensures Read(m, p, 8) == 0
  {
    assert m[p..p + 8] == m[p..p + n][..8];
    assert m[p..p + 8] == Zeros(8);
    FromZeros(8);
  }

  lemma {:induction false} FromZeros(n: nat)
    ensures FromLe(Zeros(n)) == 0
  {
    if n > 0 {
      FromLeDigit(Zeros(n));
      assert Zeros(n)[1..] == Zeros(n - 1);
      FromZeros(n - 1);
    }
  }

  /** What Free does to a live block of n bytes at position at. */
  lemma FreeIs(s: Pool, at: nat, n: nat, k: nat)
    requires |s.bins| == 8 && Reachable(s.mem, at) && n == 8 * k && 1 <= k < 8
      && at + PAYLOAD + n <= |s.mem| < 0x1_0000_0000
    requires SizeOf(HeadOf(s.mem, at)) == n && IsAllocated(HeadOf(s.mem, at)) && !PrevAllocated(HeadOf(s.mem, at))
    requires s.bins[k] < 0x1_0000_0000
    ensures var r := FreeBlock(s, at);
      && r == s.(mem := r.mem, free := s.free + n, bins := s.bins[k := at])
      && SameOutside(s.mem, r.mem, at, at + PAYLOAD + n)
      && Read(r.mem, at, HEAD) == n && Read(r.mem, at + PAYLOAD, 8) == s.bins[k]
  {
    hide Write, Read, Le, Zeros, SizeOf, IsAllocated, PrevAllocated, SetA;
    var p, hi := at + PAYLOAD, at + PAYLOAD + n;
    var v := HeadOf(s.mem, at);
    var m := Write(s.mem, p, Zeros(n));
    WriteOutside(s.mem, p, Zeros(n), at + PAYLOAD, hi);
    OutsideWider(s.mem, m, p, hi, at, hi);
    ClearA(v, n);
    var m' := Write(m, at, Le(SetA(v, false), HEAD));
    WriteOutside(m, at, Le(SetA(v, false), HEAD), at, at + HEAD);
    ReadWord(m, at, SetA(v, false), HEAD);
    OutsideWider(m, m', at, at + HEAD, at, hi);
    OutsideTrans(s.mem, m, m', at, hi);
    ReadOutside(m, m', at, at + HEAD, p, n);
    ZerosRead(m', p, n);
    if s.bins[k] != 0 {
      var m'' := Write(m', p, Le(s.bins[k], 8));
      WriteOutside(m', p, Le(s.bins[k], 8), p, p + 8);
      ReadWord(m', p, s.bins[k], 8);
      ReadOutside(m', m'', p, p + 8, at, HEAD);
      OutsideWider(m', m'', p, p + 8, at, hi);
      OutsideTrans(s.mem, m', m'', at, hi);
    }
  }

  lemma ClearA(v: u32, n: nat)
    requires SizeOf(v) == n && IsAllocated(v) && !PrevAllocated(v)
    ensures SetA(v, false) == n
  {
  }

  ghost function Released(g: Shadow, i: nat): Shadow
    requires i < |g.blocks| && g.blocks[i].size / 8 < |g.lists|
  {
    var k := g.blocks[i].size / 8;
    Shadow(Flip(g.blocks, i), g.lists[k := [i] + g.lists[k]])
  }

  lemma FreeBinned(m: seq<byte>, m': seq<byte>, bins: seq<nat>, g: Shadow, end: nat, top: nat, i: nat, k: nat)
    requires Apart(g.blocks, end, top) && top <= |m| && Binned(m, bins, g) && i < |g.blocks| && g.blocks[i].live
      && k < 8
    requires g.blocks[i].size == 8 * k && g.blocks[i].size / 8 == k
    requires SameOutside(m, m', g.blocks[i].at, g.blocks[i].at + PAYLOAD + g.blocks[i].size)
    requires g.blocks[i].at + 16 <= |m'| && Read(m', g.blocks[i].at + PAYLOAD, 8) == bins[k]
    ensures Binned(m', bins[k := g.blocks[i].at], Released(g, i))
  {
    hide Read, SameOutside, Apart, Chained, Flip;
    var bins', g' := bins[k := g.blocks[i].at], Released(g, i);
    forall q | 0 <= q < 8 ensures Chained(m', bins'[q], g'.blocks, g'.lists[q], q) {
      assert Chained(m, bins[q], g.blocks, g.lists[q], q);
      if q == k { PushChain(m, m', g.blocks, end, top, i, bins[k], g.lists[k], k); }
      else { ChainKept(m, m', g.blocks, end, top, i, bins[q], g.lists[q], q); }
    }
  }

  /** The block goes to the front of its bin, and only its own bytes change. */
  lemma FreeKeeps(s: Pool, g: Shadow, top: nat, total: int, i: nat)
    requires Inv(s, g, top, total) && i < |g.blocks| && g.blocks[i].live
    ensures Reachable(s.mem, g.blocks[i].at) && g.blocks[i].size / 8 < |g.lists|
    ensures var r := FreeBlock(s, g.blocks[i].at);
      && Inv(r, Released(g, i), top, total)
      && SameOutside(s.mem, r.mem, g.blocks[i].at, g.blocks[i].at + PAYLOAD + g.blocks[i].size)
  {
    hide Read, Write, SameOutside, LiveSum, HeadOf, SizeOf, Apart, Heads, Recorded, Zeros, Chained, Flip, Reachable,
      PrevAllocated, IsAllocated, FreeBlock, Binned, Sound;
    var bs, b := g.blocks, g.blocks[i];
    InBlocks(bs, s.end, top, i);
    BlockHead(s.mem, bs, s.end, top, i);
    var k := b.size / 8;
    BinIndex(b.size);
    BinOf(s, g, top, k);
    FreeIs(s, b.at, b.size, k);
    var r := FreeBlock(s, b.at);
    SameLengths(s.mem, r.mem, b.at, b.at + PAYLOAD + b.size);
    HeadsKept(s.mem, r.mem, bs, s.end, top, i);
    RecordedKept(s, r, b.at, b.at + PAYLOAD + b.size);
    LiveSumFlip(bs, i);
    FreeBinned(s.mem, r.mem, s.bins, g, s.end, top, i, k);
    SoundKept(s, r, Released(g, i), top);
  }

  lemma BinOf(s: Pool, g: Shadow, top: nat, k: nat)
    requires Sound(s) && k < 8 && top <= |s.mem| && Apart(g.blocks, s.end, top) && Binned(s.mem, s.bins, g)
    ensures |s.bins| == |g.lists| == 8 && s.bins[k] < 0x1_0000_0000 && |s.mem| < 0x1_0000_0000 && s.head + HEAD <= s.end
  {
    hide Chained, Reachable;
    assert Chained(s.mem, s.bins[k], g.blocks, g.lists[k], k);
    BinBelow(s, g.blocks, top, g.lists[k], k);
  }

  lemma BinIndex(size: nat)
    requires 8 <= size <= 56 && size % 8 == 0
    ensures size == 8 * (size / 8) && 1 <= size / 8 < 8
  {
  }

  lemma BinBelow(s: Pool, bs: seq<Block>, top: nat, list: seq<nat>, k: nat)
    requires Sound(s) && k < 8 && top <= |s.mem| && Apart(bs, s.end, top) && Chained(s.mem, s.bins[k], bs, list, k)
    ensures s.bins[k] < 0x1_0000_0000
  {
    hide Lists, Linked, SizeOf, HeadOf;
  }

  /** A block put in front of its bin's chain. */
  lemma PushChain(m: seq<byte>, m': seq<byte>, bs: seq<Block>, end: nat, top: nat, i: nat, first: nat, list: seq<nat>,
      k: nat)
    requires Apart(bs, end, top) && top <= |m| && Chained(m, first, bs, list, k) && i < |bs| && bs[i].live
      && bs[i].size == 8 * k
    requires SameOutside(m, m', bs[i].at, bs[i].at + PAYLOAD + bs[i].size)
    requires bs[i].at + 16 <= |m'| && Read(m', bs[i].at + PAYLOAD, 8) == first
    ensures Chained(m', bs[i].at, Flip(bs, i), [i] + list, k)
  {
    hide Read, SameOutside, Apart, Lists, Linked, Flip;
    ListsPush(bs, i, list, k);
    var bs', list' := Flip(bs, i), [i] + list;
    LinkFlip(bs, i, list, 0);
    FlipAt(bs, i);
    FirstLinked(m', bs, i, list);
    forall j | 0 <= j < |list'| ensures Linked(m', bs', list', j) {
      if j > 0 {
        assert Linked(m, bs, list, j - 1);
        LinkedKept(m, m', bs, end, top, i, list, j - 1);
        LaterLinked(m', bs', i, list, j);
      }
    }
  }

  lemma FlipAt(bs: seq<Block>, i: nat)
    requires i < |bs|
    ensures |Flip(bs, i)| == |bs| && Flip(bs, i)[i].at == bs[i].at && Flip(bs, i)[i].size == bs[i].size
  {
  }

  lemma FirstLinked(m: seq<byte>, bs: seq<Block>, i: nat, list: seq<nat>)
    requires i < |bs| && (forall a :: 0 <= a < |list| ==> list[a] < |bs|)
    requires bs[i].at + 16 <= |m| && Read(m, bs[i].at + PAYLOAD, 8) == Link(bs, list, 0)
    ensures forall a :: 0 <= a < |[i] + list| ==> ([i] + list)[a] < |Flip(bs, i)|
    ensures Linked(m, Flip(bs, i), [i] + list, 0)
  {
    hide Read;
    assert ([i] + list)[1..] == list;
    LinkRest(Flip(bs, i), [i] + list, 0);
    LinkFlip(bs, i, list, 0);
  }

  lemma LaterLinked(m: seq<byte>, bs: seq<Block>, i: nat, list: seq<nat>, j: nat)
    requires i < |bs| && (forall a :: 0 <= a < |list| ==> list[a] < |bs|) && 0 < j <= |list|
      && Linked(m, bs, list, j - 1)
    ensures forall a :: 0 <= a < |[i] + list| ==> ([i] + list)[a] < |bs|
    ensures Linked(m, bs, [i] + list, j)
  {
    hide Read;
    assert ([i] + list)[1..] == list;
    LinkRest(bs, [i] + list, j);
  }

  lemma ListsPush(bs: seq<Block>, i: nat, list: seq<nat>, k: nat)
    requires Lists(bs, list, k) && i < |bs| && bs[i].live && bs[i].size == 8 * k
    ensures Lists(Flip(bs, i), [i] + list, k)
    ensures forall a :: 0 <= a < |list| ==> list[a] != i && list[a] < |bs|
    ensures forall a :: 0 <= a < |[i] + list| ==> ([i] + list)[a] < |bs|
  {
    var bs', list' := Flip(bs, i), [i] + list;
    forall x | 0 <= x < |bs'| && !bs'[x].live && bs'[x].size == 8 * k ensures x in list' {
      if x != i {
        assert x in list;
        var a :| 0 <= a < |list| && list[a] == x;
        assert list'[a + 1] == x;
      } else {
        assert list'[0] == x;
      }
    }
  }

  /** Freeing a block that is already free changes nothing. */
  lemma FreeTwice(s: Pool, g: Shadow, top: nat, total: int, i: nat)
    requires Inv(s, g, top, total) && i < |g.blocks| && !g.blocks[i].live
    ensures Reachable(s.mem, g.blocks[i].at) && FreeBlock(s, g.blocks[i].at) == s
  {
    hide Read, Write, HeadOf, SizeOf, Apart, Heads, Recorded, Chained, Reachable, PrevAllocated, IsAllocated;
    BlockHead(s.mem, g.blocks, s.end, top, i);
  }

  // ----- runs -----

  /** Alloc: deep_malloc; Release: deep_free of the i-th block ever carved; Store: the owner writes into it. */
  datatype Op = Alloc(size: nat) | Release(i: nat) | Store(i: nat, off: nat, bytes: seq<byte>)

  /** Small sizes, while the remainder can hold what is carved; no write outside a live block. */
  ghost predicate Allowed(s: Pool, g: Shadow, op: Op)
    requires |s.bins| == 8
  {
    match op
    case Alloc(size) =>
      var aligned := Align(size + PAYLOAD);
      1 <= size <= FAST_MAX - PAYLOAD
      && (s.free >= size && s.bins[aligned / 8 - 1] == 0 && aligned <= s.end - s.head ==> Fits(s, aligned))
    case Release(i) => i < |g.blocks|
    case Store(i, off, bytes) => i < |g.blocks| && g.blocks[i].live && off + |bytes| <= g.blocks[i].size
  }

  /** The pool after an operation. */
  ghost function After(s: Pool, g: Shadow, op: Op, top: nat, total: int): Pool
    requires |s.bins| == 8 && Allowed(s, g, op) && Inv(s, g, top, total)
  {
    match op
    case Alloc(size) => Malloc(s, size).s
    case Release(i) => (BlockHead(s.mem, g.blocks, s.end, top, i); FreeBlock(s, g.blocks[i].at))
    case Store(i, off, bytes) => s.(mem := Write(s.mem, g.blocks[i].at + PAYLOAD + off, bytes))
  }

  ghost function ShadowAfter(s: Pool, g: Shadow, op: Op, top: nat, total: int): Shadow
    requires |s.bins| == 8 && Allowed(s, g, op) && Inv(s, g, top, total)
  {
    match op
    case Alloc(size) =>
      var aligned := Align(size + PAYLOAD);
      var k := aligned / 8 - 1;
      if s.free < size then g
      else if s.bins[k] != 0 then
        assert Chained(s.mem, s.bins[k], g.blocks, g.lists[k], k);
        Shadow(Flip(g.blocks, g.lists[k][0]), g.lists[k := g.lists[k][1..]])
      else if aligned <= s.end - s.head then Added(g, Block(s.end - aligned - HEAD, aligned - PAYLOAD, true))
      else g
    case Release(i) => if g.blocks[i].live then Released(g, i) else g
    case Store(_, _, _) => g
  }

  /** The block an operation is about, if it is one that exists already. */
  ghost predicate About(s: Pool, g: Shadow, op: Op, j: nat)
  {
    (op.Release? && op.i == j) || (op.Store? && op.i == j)
  }

  ghost predicate SamePayload(s: Pool, s': Pool, b: Block)
  {
    && b.at + PAYLOAD + b.size <= |s.mem| == |s'.mem|
    && s'.mem[b.at + PAYLOAD..b.at + PAYLOAD + b.size] == s.mem[b.at + PAYLOAD..b.at + PAYLOAD + b.size]
  }

  lemma PayloadKept(s: Pool, s': Pool, bs: seq<Block>, end: nat, top: nat, i: nat, j: nat)
    requires Apart(bs, end, top) && top <= |s.mem| && i < |bs| && j < |bs| && i != j
    requires SameOutside(s.mem, s'.mem, bs[i].at, bs[i].at + PAYLOAD + bs[i].size)
    ensures SamePayload(s, s', bs[j])
  {
    hide Read;
    InBlocks(bs, end, top, j);
    OthersKept(s.mem, s'.mem, bs, end, top, i, j);
  }

  lemma AllocKeeps(s: Pool, g: Shadow, top: nat, total: int, size: nat)
    requires Inv(s, g, top, total) && Allowed(s, g, Alloc(size))
    ensures Inv(Malloc(s, size).s, ShadowAfter(s, g, Alloc(size), top, total), top, total)
    ensures forall j :: 0 <= j < |g.blocks| && g.blocks[j].live ==> SamePayload(s, Malloc(s, size).s, g.blocks[j])
  {
    hide Pop, Carve, Apart, Read, SamePayload, Chained, Heads, Recorded, LiveSum, Reachable, Flip;
    var aligned := Align(size + PAYLOAD);
    AlignIs(size);
    var k := aligned / 8 - 1;
    if s.free < size {
      forall j | 0 <= j < |g.blocks| && g.blocks[j].live ensures SamePayload(s, s, g.blocks[j]) { Unchanged(s, g, top, total, j); }
    } else if s.bins[k] != 0 {
      var i, g' := PopKeeps(s, g, top, total, k);
      assert Chained(s.mem, s.bins[k], g.blocks, g.lists[k], k);
      var first := ChainFirst(s.mem, s.bins[k], g.blocks, g.lists[k], k);
      InBlocks(g.blocks, s.end, top, i);
      SameBlock(s, g, top, total, k, i);
      forall j | 0 <= j < |g.blocks| && g.blocks[j].live ensures SamePayload(s, Pop(s, k).s, g.blocks[j]) {
        PayloadKept(s, Pop(s, k).s, g.blocks, s.end, top, i, j);
      }
    } else if aligned <= s.end - s.head {
      var b := CarveKeeps(s, g, top, total, aligned);
      forall j | 0 <= j < |g.blocks| && g.blocks[j].live ensures SamePayload(s, Carve(s, aligned).s, g.blocks[j]) {
        AboveKept(s, Carve(s, aligned).s, g.blocks, top, j);
      }
    } else {
      forall j | 0 <= j < |g.blocks| && g.blocks[j].live ensures SamePayload(s, s, g.blocks[j]) { Unchanged(s, g, top, total, j); }
    }
  }

  /** Is block i of g' one that g did not hand out? */
  ghost predicate NewlyLive(g: Shadow, g': Shadow, i: nat)
  {
    i < |g'.blocks| && g'.blocks[i].live && (i < |g.blocks| ==> !g.blocks[i].live)
  }

  /**
   What a request gets: the cleared payload of a block that was not in use, at least as large as asked for and less
   than 8 bytes larger; NULL exactly when free_memory or, with the bin empty, the remainder does not cover it.
   */
  lemma AllocGives(s: Pool, g: Shadow, top: nat, total: int, size: nat) returns (i: nat)
    requires Inv(s, g, top, total) && Allowed(s, g, Alloc(size))
    ensures var r, g', aligned := Malloc(s, size), ShadowAfter(s, g, Alloc(size), top, total), Align(size + PAYLOAD);
      && aligned / 8 - 1 < |s.bins|
      && (r.p == 0 <==> s.free < size || (s.bins[aligned / 8 - 1] == 0 && aligned > s.end - s.head))
      && (r.p != 0 ==> NewlyLive(g, g', i) && r.p == g'.blocks[i].at + PAYLOAD && size <= g'.blocks[i].size < size + 8)
      && (r.p != 0 ==> r.p + size <= |r.s.mem| && r.s.mem[r.p..r.p + size] == Zeros(size))
  {
    hide Pop, Carve, Apart, Read, Chained, Heads, Recorded, LiveSum, Reachable, SameOutside, Fits, HeadOf, SizeOf;
    var aligned := Align(size + PAYLOAD);
    AlignIs(size);
    var k := aligned / 8 - 1;
    i := 0;
    if s.free < size {
    } else if s.bins[k] != 0 {
      var g';
      i, g' := PopKeeps(s, g, top, total, k);
      SameBlock(s, g, top, total, k, i);
      assert aligned == 8 * k + 8;
      ZerosPart(Pop(s, k).s.mem, Pop(s, k).p, g.blocks[i].size, size);
    } else if aligned <= s.end - s.head {
      var b := CarveKeeps(s, g, top, total, aligned);
      i := |g.blocks|;
      ZerosPart(Carve(s, aligned).s.mem, Carve(s, aligned).p, b.size, size);
    }
  }

  /**
   Where a request is served from: with a free block of the size asked for, rounded up to 8 bytes, the remainder
   keeps its end and the block is one of those; with none, the block is the last of the remainder, which loses its
   payload and 12 bytes.
   */
  lemma AllocTakes(s: Pool, g: Shadow, top: nat, total: int, size: nat)
    requires Inv(s, g, top, total) && Allowed(s, g, Alloc(size)) && size <= s.free
    ensures var r, k := Malloc(s, size), (size + 7) / 8;
      && ((exists at :: FreeAt(g.blocks, k, at)) ==> r.p >= 8 && FreeAt(g.blocks, k, r.p - 8) && r.s.end == s.end)
      && ((forall at :: !FreeAt(g.blocks, k, at)) && r.p != 0 ==> r.s.end == s.end - 8 * k - 12 && r.p == r.s.end + 8)
      && (r.p != 0 ==> r.s.free == s.free - 8 * k && r.s.head == s.head)
  {
    hide Pop, Carve, Apart, Read, Heads, Recorded, LiveSum, Reachable, SameOutside, Fits, Linked, Lists, HeadOf, SizeOf;
    var aligned := Align(size + PAYLOAD);
    AlignIs(size);
    var k := aligned / 8 - 1;
    var bs, list := g.blocks, g.lists[k];
    assert Chained(s.mem, s.bins[k], bs, list, k);
    if s.bins[k] != 0 {
      var i := ChainFirst(s.mem, s.bins[k], bs, list, k);
      assert FreeAt(bs, k, bs[i].at);
      PopTakes(s, g, top, k, i);
    } else {
      forall at ensures !FreeAt(bs, k, at) {
        if FreeAt(bs, k, at) {
          var i :| 0 <= i < |bs| && !bs[i].live && bs[i].size == 8 * k && bs[i].at == at;
          FreeIsLinked(s, g, top, total, k, i);
        }
      }
      if aligned <= s.end - s.head { CarveTakes(s, aligned); }
    }
  }

  /** The first block of a bin leaves it with its payload's size taken off free_memory. */
  lemma PopTakes(s: Pool, g: Shadow, top: nat, k: nat, i: nat)
    requires Sound(s) && k < 8 && s.bins[k] != 0 && i < |g.blocks| && s.bins[k] == g.blocks[i].at && g.blocks[i].size == 8 * k
    requires Apart(g.blocks, s.end, top) && top <= |s.mem| && Heads(s.mem, g.blocks)
    ensures var r := Pop(s, k);
      r.p == g.blocks[i].at + 8 && r.s.free == s.free - 8 * k && r.s.head == s.head && r.s.end == s.end
      && r.s.bins == s.bins[k := Read(s.mem, s.bins[k] + PAYLOAD, 8)]
  {
    hide Read, Write, Zeros, SetFlags, Reachable, HeadOf, SizeOf, Heads, Apart, PrevAllocated, IsAllocated;
    BlockHead(s.mem, g.blocks, s.end, top, i);
  }

  lemma FreeIsLinked(s: Pool, g: Shadow, top: nat, total: int, k: nat, i: nat)
    requires Inv(s, g, top, total) && k < 8 && i < |g.blocks| && !g.blocks[i].live && g.blocks[i].size == 8 * k
    ensures s.bins[k] != 0
  {
    hide Heads, Recorded, LiveSum, Reachable, Linked;
    assert Chained(s.mem, s.bins[k], g.blocks, g.lists[k], k);
    var list := g.lists[k];
    assert i in list;
    InBlocks(g.blocks, s.end, top, list[0]);
  }

  lemma CarveTakes(s: Pool, aligned: nat)
    requires Sound(s) && 16 <= aligned <= FAST_MAX && aligned % 8 == 0 && aligned <= s.end - s.head
    ensures var r := Carve(s, aligned);
      r.s.end == s.end - aligned - 4 && r.p == r.s.end + 8 && r.s.free == s.free - (aligned - 8) && r.s.head == s.head
  {
    hide Read, Write, Zeros, SetFlags, Reachable, SizeOf, SetSize, Shrunk;
  }

  /** A request right after a release of that size gets the block back, and all but the buffer is as it was. */
  lemma FreeThenAlloc(s: Pool, g: Shadow, top: nat, total: int, i: nat, size: nat)
    requires Inv(s, g, top, total) && i < |g.blocks| && g.blocks[i].live && 0 <= s.free
    requires g.blocks[i].size - 8 < size <= g.blocks[i].size
    ensures Reachable(s.mem, g.blocks[i].at) && Sound(FreeBlock(s, g.blocks[i].at)) && size <= FAST_MAX - PAYLOAD
    ensures var r := Malloc(FreeBlock(s, g.blocks[i].at), size);
      r.p == g.blocks[i].at + 8 && r.s == s.(mem := r.s.mem)
  {
    hide Read, Write, LiveSum, HeadOf, SizeOf, Apart, Heads, Recorded, Zeros, Chained, Flip, Reachable, PrevAllocated,
      IsAllocated, FreeBlock, Pop;
    var b := g.blocks[i];
    InBlocks(g.blocks, s.end, top, i);
    BlockHead(s.mem, g.blocks, s.end, top, i);
    var k := b.size / 8;
    BinIndex(b.size);
    BinOf(s, g, top, k);
    FreeIs(s, b.at, b.size, k);
    FreeKeeps(s, g, top, total, i);
    var f := FreeBlock(s, b.at);
    RoundUp(b.size, size);
    assert Released(g, i).blocks[i].at == b.at && Released(g, i).blocks[i].size == b.size by { FlipAt(g.blocks, i); }
    PopTakes(f, Released(g, i), top, k, i);
  }

  lemma RoundUp(n: nat, size: nat)
    requires 8 <= n <= 56 && n % 8 == 0 && n - 8 < size <= n
    ensures Align(size + PAYLOAD) / 8 - 1 == n / 8
  {
  }

  lemma ZerosPart(m: seq<byte>, p: nat, n: nat, size: nat)
    requires p + n <= |m| && m[p..p + n] == Zeros(n) && size <= n
    ensures m[p..p + size] == Zeros(size)
  {
    assert m[p..p + size] == m[p..p + n][..size];
  }

  lemma AlignIs(size: nat)
    requires 1 <= size <= FAST_MAX - PAYLOAD
    ensures var a := Align(size + PAYLOAD); 16 <= a <= FAST_MAX && a % 8 == 0 && size + PAYLOAD <= a < size + PAYLOAD + 8
  {
  }

  /** The block a bin's chain starts with is determined by its position. */
  lemma SameBlock(s: Pool, g: Shadow, top: nat, total: int, k: nat, i: nat)
    requires Inv(s, g, top, total) && k < 8 && s.bins[k] != 0 && i < |g.blocks|
      && Pop(s, k).p == g.blocks[i].at + PAYLOAD
    ensures g.lists[k] != [] && g.lists[k][0] == i
  {
    hide Read, Heads, Recorded, LiveSum, Reachable, Lists, Linked, Write;
    assert Chained(s.mem, s.bins[k], g.blocks, g.lists[k], k);
    var f := ChainFirst(s.mem, s.bins[k], g.blocks, g.lists[k], k);
  }

  lemma Unchanged(s: Pool, g: Shadow, top: nat, total: int, j: nat)
    requires Inv(s, g, top, total) && j < |g.blocks|
    ensures SamePayload(s, s, g.blocks[j])
  {
    hide Heads, Recorded, LiveSum, Binned, Sound;
    InBlocks(g.blocks, s.end, top, j);
  }

  lemma AboveKept(s: Pool, s': Pool, bs: seq<Block>, top: nat, j: nat)
    requires Apart(bs, s.end, top) && top <= |s.mem| && j < |bs| && SameOutside(s.mem, s'.mem, 0, s.end)
    ensures SamePayload(s, s', bs[j])
  {
    hide Read;
    InBlocks(bs, s.end, top, j);
    ReadOutside(s.mem, s'.mem, 0, s.end, bs[j].at + PAYLOAD, bs[j].size);
  }

  lemma ReleaseKeeps(s: Pool, g: Shadow, top: nat, total: int, i: nat)
    requires Inv(s, g, top, total) && i < |g.blocks|
    ensures Reachable(s.mem, g.blocks[i].at) && g.blocks[i].size / 8 < |g.lists|
    ensures Inv(FreeBlock(s, g.blocks[i].at), if g.blocks[i].live then Released(g, i) else g, top, total)
    ensures forall j :: 0 <= j < |g.blocks| && j != i ==> SamePayload(s, FreeBlock(s, g.blocks[i].at), g.blocks[j])
  {
    hide FreeBlock, Apart, Read, SamePayload, Chained, Heads, Recorded, LiveSum, Reachable, Flip;
    InBlocks(g.blocks, s.end, top, i);
    if g.blocks[i].live {
      FreeKeeps(s, g, top, total, i);
      forall j | 0 <= j < |g.blocks| && j != i ensures SamePayload(s, FreeBlock(s, g.blocks[i].at), g.blocks[j]) {
        PayloadKept(s, FreeBlock(s, g.blocks[i].at), g.blocks, s.end, top, i, j);
      }
    } else {
      FreeTwice(s, g, top, total, i);
      forall j | 0 <= j < |g.blocks| && j != i ensures SamePayload(s, s, g.blocks[j]) { Unchanged(s, g, top, total, j); }
    }
  }

  /** A live block is the owner's: what it holds is no part of the invariant. */
  lemma StoreKeeps(s: Pool, g: Shadow, top: nat, total: int, i: nat, off: nat, bytes: seq<byte>)
    requires Inv(s, g, top, total) && i < |g.blocks| && g.blocks[i].live && off + |bytes| <= g.blocks[i].size
    ensures g.blocks[i].at + PAYLOAD + off + |bytes| <= |s.mem|
    ensures var r := s.(mem := Write(s.mem, g.blocks[i].at + PAYLOAD + off, bytes));
      Inv(r, g, top, total) && forall j :: 0 <= j < |g.blocks| && j != i ==> SamePayload(s, r, g.blocks[j])
  {
    hide Apart, Read, SamePayload, Heads, Recorded, LiveSum, Reachable, Write, Chained, SameOutside;
    var bs, b := g.blocks, g.blocks[i];
    InBlocks(bs, s.end, top, i);
    var r := s.(mem := Write(s.mem, b.at + PAYLOAD + off, bytes));
    var lo, hi := b.at, b.at + PAYLOAD + b.size;
    WriteOutside(s.mem, b.at + PAYLOAD + off, bytes, b.at + PAYLOAD, hi);
    OutsideWider(s.mem, r.mem, b.at + PAYLOAD, hi, lo, hi);
    SameLengths(s.mem, r.mem, lo, hi);
    RecordedKept(s, r, lo, hi);
    HeadsStored(s.mem, r.mem, bs, s.end, top, i);
    forall j | 0 <= j < |bs| && j != i ensures SamePayload(s, r, bs[j]) { PayloadKept(s, r, bs, s.end, top, i, j); }
    forall q | 0 <= q < 8 ensures Chained(r.mem, r.bins[q], bs, g.lists[q], q) {
      assert Chained(s.mem, s.bins[q], bs, g.lists[q], q);
      ChainStored(s.mem, r.mem, bs, s.end, top, i, s.bins[q], g.lists[q], q);
    }
    SoundKept(s, r, g, top);
  }

  lemma HeadsStored(m: seq<byte>, m': seq<byte>, bs: seq<Block>, end: nat, top: nat, i: nat)
    requires Apart(bs, end, top) && top <= |m| && i < |bs| && Heads(m, bs)
    requires SameOutside(m, m', bs[i].at + PAYLOAD, bs[i].at + PAYLOAD + bs[i].size)
    ensures Heads(m', bs)
  {
    hide Read;
    var lo, hi := bs[i].at + PAYLOAD, bs[i].at + PAYLOAD + bs[i].size;
    forall j | 0 <= j < |bs| ensures bs[j].at + HEAD <= |m'| && Read(m', bs[j].at, HEAD) == bs[j].size + (if bs[j].live then 1 else 0) {
      ReadOutside(m, m', lo, hi, bs[j].at, HEAD);
    }
  }

  lemma ChainStored(m: seq<byte>, m': seq<byte>, bs: seq<Block>, end: nat, top: nat, i: nat, first: nat,
      list: seq<nat>, k: nat)
    requires Apart(bs, end, top) && top <= |m| && i < |bs| && bs[i].live && Chained(m, first, bs, list, k)
    requires SameOutside(m, m', bs[i].at, bs[i].at + PAYLOAD + bs[i].size)
    ensures Chained(m', first, bs, list, k)
  {
    hide Read, SameOutside, Apart;
    SameLengths(m, m', bs[i].at, bs[i].at + PAYLOAD + bs[i].size);
    forall j | 0 <= j < |list| ensures Linked(m', bs, list, j) {
      assert Linked(m, bs, list, j);
      OthersKept(m, m', bs, end, top, i, list[j]);
    }
  }

  /** Every operation keeps the invariant and the contents of every other live block. */
  lemma StepKeeps(s: Pool, g: Shadow, top: nat, total: int, op: Op)
    requires Inv(s, g, top, total) && Allowed(s, g, op)
    ensures Inv(After(s, g, op, top, total), ShadowAfter(s, g, op, top, total), top, total)
    ensures forall j :: 0 <= j < |g.blocks| && g.blocks[j].live && !About(s, g, op, j) ==> SamePayload(s, After(s, g, op, top, total), g.blocks[j])
  {
    hide Inv, Malloc, FreeBlock, Apart, Read, Write, SamePayload, Reachable, Chained;
    match op
    case Alloc(size) => AllocKeeps(s, g, top, total, size);
    case Release(i) => ReleaseKeeps(s, g, top, total, i);
    case Store(i, off, bytes) => StoreKeeps(s, g, top, total, i, off, bytes);
  }


  /** Whether each operation of a run is allowed where it happens. */
  ghost predicate RunAllowed(s: Pool, g: Shadow, top: nat, total: int, ops: seq<Op>)
    requires Inv(s, g, top, total)
    decreases |ops|
  {
    ops == [] || (Allowed(s, g, ops[0])
      && (StepKeeps(s, g, top, total, ops[0]); RunAllowed(After(s, g, ops[0], top, total), ShadowAfter(s, g, ops[0], top, total), top, total, ops[1..])))
  }

  /** Over every run of allowed operations the invariant holds at the end. */
  lemma {:induction false} RunKeeps(s: Pool, g: Shadow, top: nat, total: int, ops: seq<Op>) returns (s': Pool,
      g': Shadow)
    requires Inv(s, g, top, total) && RunAllowed(s, g, top, total, ops)
    ensures Inv(s', g', top, total) && Reached(s, g, top, total, ops, s', g')
    decreases |ops|
  {
    hide Sound, Apart, Heads, Recorded, Binned, LiveSum, After, ShadowAfter, Allowed;
    SoundBins(s);
    if ops == [] {
      s', g' := s, g;
    } else {
      StepKeeps(s, g, top, total, ops[0]);
      s', g' := RunKeeps(After(s, g, ops[0], top, total), ShadowAfter(s, g, ops[0], top, total), top, total, ops[1..]);
    }
  }

  /** (s', g') is where the run ends. */
  ghost predicate Reached(s: Pool, g: Shadow, top: nat, total: int, ops: seq<Op>, s': Pool, g': Shadow)
    requires Inv(s, g, top, total)
    decreases |ops|
  {
    if ops == [] then s' == s && g' == g
    else
      Allowed(s, g, ops[0])
      && (StepKeeps(s, g, top, total, ops[0]); Reached(After(s, g, ops[0], top, total), ShadowAfter(s, g, ops[0], top, total), top, total, ops[1..], s', g'))
  }

  lemma SoundBins(s: Pool)
    requires Sound(s)
    ensures |s.bins| == 8
  {
  }

  /** What the invariant says to the pool's users, at every point of every run. */
  lemma InvMeans(s: Pool, g: Shadow, top: nat, total: int, i: nat, j: nat)
    requires Inv(s, g, top, total) && i < j < |g.blocks|
    ensures s.head + HEAD <= g.blocks[j].at && g.blocks[j].at + PAYLOAD + g.blocks[j].size <= g.blocks[i].at
    ensures g.blocks[i].at + PAYLOAD + g.blocks[i].size <= top <= |s.mem|
    ensures s.free + LiveSum(g.blocks) == total
  {
    hide Heads, Recorded, LiveSum, Binned, Sound;
    SoundHead(s);
  }

  lemma SoundHead(s: Pool)
    requires Sound(s)
    ensures s.head + HEAD <= s.end
  {
  }

  lemma {:induction false} SumsBelow(bs: seq<Block>, end: nat, top: nat)
    requires Apart(bs, end, top) && end <= top
    ensures LiveSum(bs) <= top - end
    ensures bs != [] ==> LiveSum(bs) <= top - bs[|bs| - 1].at
    decreases |bs|
  {
    if bs != [] {
      var n := |bs| - 1;
      assert Apart(bs[..n], bs[n].at + PAYLOAD + bs[n].size + HEAD, top);
      SumsBelow(bs[..n], bs[n].at + PAYLOAD + bs[n].size + HEAD, top);
    }
  }

  /**
   free_memory never wraps: with the count deep_mem_init starts from, it always covers what is left of the
   remainder, so a request it turns down is one the remainder could not hold either.
   */
  lemma FreeCovers(s: Pool, g: Shadow, top: nat, total: int)
    requires Inv(s, g, top, total) && total == top - s.head + HEAD
    ensures s.free >= s.end - s.head + HEAD
  {
    hide Heads, Recorded, Binned, Reachable;
    SumsBelow(g.blocks, s.end, top);
  }

  /** The blocks met by following the links in the buffer from a bin, for at most so many hops. */
  function Follow(m: seq<byte>, at: nat, hops: nat): seq<nat>
    decreases hops
  {
    if at == 0 || hops == 0 || at + PAYLOAD + 8 > |m| then [] else [at] + Follow(m, Read(m, at + PAYLOAD, 8), hops - 1)
  }

  /** Positions of the list's blocks from the j-th on. */
  function Positions(bs: seq<Block>, list: seq<nat>, j: nat): (r: seq<nat>)
    requires (forall a :: 0 <= a < |list| ==> list[a] < |bs|) && j <= |list|
    ensures |r| == |list| - j && forall a :: 0 <= a < |r| ==> r[a] == bs[list[j + a]].at
    decreases |list| - j
  {
    if j == |list| then [] else [bs[list[j]].at] + Positions(bs, list, j + 1)
  }

  lemma {:induction false} FollowIs(m: seq<byte>, first: nat, bs: seq<Block>, list: seq<nat>, k: nat, end: nat,
      top: nat, j: nat, hops: nat)
    requires Chained(m, first, bs, list, k) && Apart(bs, end, top) && 0 < end && j <= |list| && hops >= |list| - j
    ensures Follow(m, Link(bs, list, j), hops) == Positions(bs, list, j)
    decreases |list| - j
  {
    hide Read;
    if j < |list| {
      assert Linked(m, bs, list, j);
      FollowIs(m, first, bs, list, k, end, top, j + 1, hops - 1);
    }
  }

  /** Is there a free block of bin k's size at this position? */
  ghost predicate FreeAt(bs: seq<Block>, k: nat, at: nat)
  {
    exists i :: 0 <= i < |bs| && !bs[i].live && bs[i].size == 8 * k && bs[i].at == at
  }

  /** Following bin k's links ends, and meets exactly the free blocks of its size, none twice. */
  lemma BinMeans(s: Pool, g: Shadow, top: nat, total: int, k: nat, hops: nat)
    requires Inv(s, g, top, total) && k < 8 && hops >= |g.lists[k]|
    ensures var w := Follow(s.mem, s.bins[k], hops);
      && (forall at :: at in w <==> FreeAt(g.blocks, k, at)) && (forall a, b :: 0 <= a < b < |w| ==> w[a] != w[b])
  {
    hide Read, Recorded, Heads, LiveSum;
    var bs, list := g.blocks, g.lists[k];
    assert Chained(s.mem, s.bins[k], bs, list, k);
    FollowIs(s.mem, s.bins[k], bs, list, k, s.end, top, 0, hops);
    PositionsAre(bs, list, k, s.end, top);
  }

  lemma PositionsAre(bs: seq<Block>, list: seq<nat>, k: nat, end: nat, top: nat)
    requires Lists(bs, list, k) && Apart(bs, end, top)
    ensures var w := Positions(bs, list, 0);
      && (forall at :: at in w <==> FreeAt(bs, k, at)) && (forall a, b :: 0 <= a < b < |w| ==> w[a] != w[b])
  {
    var w := Positions(bs, list, 0);
    forall at ensures at in w <==> FreeAt(bs, k, at) {
      if at in w {
        var a :| 0 <= a < |w| && w[a] == at;
        assert bs[list[a]].at == at;
      }
      if i :| 0 <= i < |bs| && !bs[i].live && bs[i].size == 8 * k && bs[i].at == at {
        var a :| 0 <= a < |list| && list[a] == i;
        assert w[a] == at;
      }
    }
    forall a, b | 0 <= a < b < |w| ensures w[a] != w[b] {
      assert list[a] != list[b];
    }
  }
}
