/** The small-block allocator as it runs, on one byte buffer updated in place. */
module Allocator {
  import opened Bytes
  import opened FastBins

  const POOL_STRUCT: nat := 96      // sizeof (mem_pool_t)
  const SORTED_BLOCK: nat := 72     // sizeof (sorted_block_t)

  /** The free memory deep_mem_init announces for a buffer of the given size. */
  function FirstFree(size: nat): int { size / 8 * 8 - POOL_STRUCT - SORTED_BLOCK - HEAD }

  class Allocator {
    const mem: array<byte>
    const bins: array<nat>
    var free: int
    var head: nat
    var end: nat

    ghost predicate Valid()
      reads this, mem, bins
    {
      (mem as object) != bins && Sound(Abs())
    }

    ghost function Abs(): Pool
      reads this, mem, bins
    {
      Pool(mem[..], free, head, end, bins[..])
    }

    /** deep_mem_init, on a buffer with room for the pool's structures and an empty remainder at least. */
    constructor (size: nat)
      requires POOL_STRUCT + SORTED_BLOCK + 2 * PAYLOAD <= size / 8 * 8 && size < 0x1_0000_0000
      ensures Valid() && fresh(mem) && fresh(bins) && mem.Length == size
      ensures Inv(Abs(), Shadow([], [[], [], [], [], [], [], [], []]), size / 8 * 8 - 8, FirstFree(size))
      ensures head == POOL_STRUCT + SORTED_BLOCK && end == size / 8 * 8 - 8 && free == end - head + HEAD
    {
      mem := new byte[size](_ => 0);
      bins := new nat[8](_ => 0);
      free := FirstFree(size);
      head, end := POOL_STRUCT + SORTED_BLOCK, size / 8 * 8 - 8;
      new;
      ghost var before := mem[..];
      var w: u32 := end - head - PAYLOAD + 2;
      WriteBytes(head, Le(w, HEAD));
      InitInv(before, Abs(), w);
    }

    /** A word in the buffer. */
    method Word(p: nat, n: nat) returns (v: nat)
      requires p + n <= mem.Length
      ensures v == Read(mem[..], p, n)
    {
      assert mem[p..p + n] == mem[..][p..p + n];
      v := FromLe(mem[p..p + n]);
    }

    /** memcpy into the buffer. */
    method WriteBytes(p: nat, bytes: seq<byte>)
      requires p + |bytes| <= mem.Length
      modifies mem
      ensures mem[..] == Write(old(mem[..]), p, bytes)
    {
      hide Write;
      WriteNone(mem[..], p);
      assert bytes[..0] == [];
      for i := 0 to |bytes|
        invariant mem[..] == Write(old(mem[..]), p, bytes[..i])
      {
        ghost var before := mem[..];
        mem[p + i] := bytes[i];
        assert mem[..] == before[p + i := bytes[i]];
        WriteNext(old(mem[..]), p, bytes, i);
      }
      assert bytes[..|bytes|] == bytes;
    }

    /** memset to zero. */
    method Clear(p: nat, n: nat)
      requires p + n <= mem.Length
      modifies mem
      ensures mem[..] == Write(old(mem[..]), p, Zeros(n))
    {
      WriteBytes(p, Zeros(n));
    }

    method ReadHead(at: nat) returns (v: u32)
      requires at + HEAD <= mem.Length
      ensures v == HeadOf(mem[..], at)
    {
      HeadFits(mem[..], at);
      v := Word(at, HEAD);
    }

    /** deep_malloc of a small block; 0 for NULL. */
    method Malloc(size: nat) returns (p: nat)
      requires Valid() && size <= FAST_MAX - PAYLOAD
      modifies this, mem, bins
      ensures Got(Abs(), p) == FastBins.Malloc(old(Abs()), size)
    {
      hide Read, Write, Reachable, Zeros, SetSize, SizeOf, SetFlags, Finish;
      if free < size || size == 0 { return 0; }
      var aligned := Align(size + PAYLOAD);
      AlignIs(size);
      var k := aligned / 8 - 1;
      if bins[k] != 0 {
        p := TakeFirst(k);
      } else if aligned <= end - head {
        p := CarveTop(aligned);
      } else {
        p := 0;
      }
    }

    method TakeFirst(k: nat) returns (p: nat)
      requires Valid() && k < 8 && bins[k] != 0
      modifies this, mem, bins
      ensures Got(Abs(), p) == Pop(old(Abs()), k)
    {
      hide Read, Write, Zeros, SizeOf, SetFlags, Finish;
      var at := bins[k];
      assert Reachable(mem[..], at);
      var next := Word(at + PAYLOAD, 8);
      var v := ReadHead(at);
      bins[k] := next;
      assert bins[..] == old(bins[..])[k := next];
      p := FinishBlock(at, SizeOf(v), PrevAllocated(v));
    }

    method CarveTop(aligned: nat) returns (p: nat)
      requires Valid() && 16 <= aligned <= FAST_MAX && aligned % 8 == 0 && aligned <= end - head
      modifies this, mem
      ensures Got(Abs(), p) == Carve(old(Abs()), aligned)
    {
      hide Read, Write, Zeros, SetFlags, Finish, Reachable;
      var at := end - aligned - HEAD;
      end := at;
      var h := ReadHead(head);
      WriteBytes(head, Le(SetSize(h, Wrap32(SizeOf(h) - aligned - HEAD)), HEAD));
      var v := ReadHead(at);
      WriteBytes(at, Le(SetSize(v, aligned - PAYLOAD), HEAD));
      p := FinishBlock(at, aligned - PAYLOAD, false);
    }

    /** The payload cleared, the flags set, the size accounted for. */
    method FinishBlock(at: nat, n: nat, prev: bool) returns (p: nat)
      requires at + PAYLOAD + n <= mem.Length && (mem as object) != bins
      modifies this`free, mem
      ensures Got(Abs(), p) == Finish(old(Abs()), at, n, prev)
    {
      hide Read, Write, Zeros, SetFlags;
      Clear(at + PAYLOAD, n);
      var v := ReadHead(at);
      WriteBytes(at, Le(SetFlags(v, true, prev), HEAD));
      free := free - n;
      p := at + PAYLOAD;
    }

    /** deep_free of a small block. */
    method Free(p: nat)
      requires Valid() && PAYLOAD <= p && Reachable(mem[..], p - PAYLOAD)
      modifies this, mem, bins
      ensures Abs() == FastBins.Free(old(Abs()), p)
    {
      hide Read, Write, Zeros, SetA;
      var at := p - PAYLOAD;
      var v := ReadHead(at);
      if !IsAllocated(v) || SizeOf(v) + PAYLOAD > FAST_MAX { return; }
      var n, k := SizeOf(v), (SizeOf(v) + PAYLOAD) / 8 - 1;
      Clear(p, n);
      WriteBytes(at, Le(SetA(v, false), HEAD));
      free := free + n;
      if bins[k] != 0 { WriteBytes(p, Le(bins[k], 8)); }
      bins[k] := at;
      assert bins[..] == old(bins[..])[k := at];
    }
  }

  lemma WriteNone(m: seq<byte>, p: nat)
    requires p <= |m|
    ensures Write(m, p, []) == m
  {
  }

  lemma WriteNext(m: seq<byte>, p: nat, bytes: seq<byte>, i: nat)
    requires p + |bytes| <= |m| && i < |bytes|
    ensures Write(m, p, bytes[..i])[p + i := bytes[i]] == Write(m, p, bytes[..i + 1])
  {
    assert bytes[..i + 1] == bytes[..i] + [bytes[i]];
  }

  lemma InitInv(zero: seq<byte>, s: Pool, w: u32)
    requires |zero| < 0x1_0000_0000 && s.head == POOL_STRUCT + SORTED_BLOCK && s.head + PAYLOAD <= s.end <= |zero|
      && (s.end - s.head) % 4 == 0
    requires w == s.end - s.head - PAYLOAD + 2 && s.mem == Write(zero, s.head, Le(w, HEAD))
      && s.bins == [0, 0, 0, 0, 0, 0, 0, 0]
    ensures Inv(s, Shadow([], [[], [], [], [], [], [], [], []]), s.end, s.free)
  {
    hide Read, Write;
    ReadWord(zero, s.head, w, HEAD);
    forall k | 0 <= k < 8 ensures Chained(s.mem, s.bins[k], [], [], k) {
      assert s.bins[k] == 0;
    }
  }

  /**
   The guard before a carve is too weak: on the pool that deep_mem_init makes of 200 bytes, whose remainder is 24, a
   request of 8 bytes is granted although head, block and trailing word do not fit, and the remainder's recorded size
   is no longer the distance left in it.
   */
  lemma GuardTooWeak() returns (s: Pool)
    ensures Inv(s, Shadow([], [[], [], [], [], [], [], [], []]), 192, FirstFree(200))
    ensures s.head == POOL_STRUCT + SORTED_BLOCK && s.end == 192 && s.free == FirstFree(200) && |s.mem| == 200
    ensures var r := FastBins.Malloc(s, 8);
      && !Fits(s, 16) && r.p != 0
      && !(r.s.end >= r.s.head + PAYLOAD && Read(r.s.mem, r.s.head, HEAD) == r.s.end - r.s.head - PAYLOAD + 2)
  {
    hide Read, Write, Zeros;
    var zero := Zeros(200);
    s := Pool(Write(zero, 168, Le(18, HEAD)), FirstFree(200), 168, 192, [0, 0, 0, 0, 0, 0, 0, 0]);
    InitInv(zero, s, 18);
    CarveIff(s, 16);
  }
}
