/** Flat byte sequences and their division into equal blocks. */
module Flat {

  type Byte = x: int | 0 <= x < 256

  datatype Endian = Little | Big

  /** Replace the bytes from p on. */
  function Overwrite(s: seq<Byte>, p: nat, b: seq<Byte>): (r: seq<Byte>)
    requires p + |b| <= |s|
    ensures |r| == |s|
  {
    s[..p] + b + s[p + |b|..]
  }

  /** Replace the bytes from p on, running past the end if need be. */
  function Extend(s: seq<Byte>, p: nat, b: seq<Byte>): (r: seq<Byte>)
    requires p <= |s|
    ensures |r| == if p + |b| <= |s| then |s| else p + |b|
  {
    s[..p] + b + if p + |b| <= |s| then s[p + |b|..] else []
  }

  /** The k bytes from p on. */
  function Part(s: seq<Byte>, p: nat, k: nat): (r: seq<Byte>)
    requires p + k <= |s|
    ensures |r| == k
  {
    s[p..p + k]
  }

  lemma PartMore(s: seq<Byte>, p: nat, k: nat, m: nat)
    requires p + k + m <= |s|
    ensures Part(s, p, k) + Part(s, p + k, m) == Part(s, p, k + m)
    ensures Part(s, p, 0) == []
  {
  }

  lemma OverwriteNothing(s: seq<Byte>, p: nat)
    requires p <= |s|
    ensures Overwrite(s, p, []) == s
  {
  }

  lemma ExtendNothing(s: seq<Byte>, p: nat)
    requires p <= |s|
    ensures Extend(s, p, []) == s
  {
  }

  lemma ExtendTwice(s: seq<Byte>, p: nat, a: seq<Byte>, b: seq<Byte>)
    requires p <= |s|
    ensures Extend(Extend(s, p, a), p + |a|, b) == Extend(s, p, a + b)
  {
  }

  lemma OverwriteTwice(s: seq<Byte>, p: nat, a: seq<Byte>, b: seq<Byte>)
    requires p + |a| + |b| <= |s|
    ensures Overwrite(Overwrite(s, p, a), p + |a|, b) == Overwrite(s, p, a + b)
  {
  }

  lemma OverwritePrefix(s: seq<Byte>, p: nat, b: seq<Byte>, size: nat)
    requires p <= size <= |s| && p + |b| <= |s|
    ensures Overwrite(s, p, b)[..if p + |b| <= size then size else p + |b|] == Extend(s[..size], p, b)
  {
  }

  lemma OverwriteInside(a: seq<Byte>, d: seq<Byte>, c: seq<Byte>, o: nat, chunk: seq<Byte>)
    requires o + |chunk| <= |d|
    ensures a + Overwrite(d, o, chunk) + c == Overwrite(a + d + c, |a| + o, chunk)
  {
  }

  // ---------------------------------------------------------------- blocks

  /** The flat index where block `at` starts. */
  function BlockStart(at: nat, base: nat): nat {
    at * base
  }

  /** The block a flat index is in. */
  function BlockOf(p: nat, base: nat): nat {
    if base == 0 then 0 else p / base
  }

  function Join(bs: seq<seq<Byte>>): seq<Byte> {
    if bs == [] then [] else bs[0] + Join(bs[1..])
  }

  predicate Uniform(bs: seq<seq<Byte>>, base: nat) {
    forall i :: 0 <= i < |bs| ==> |bs[i]| == base
  }

  lemma ExtendEnd(d: seq<Byte>, bytes: seq<Byte>)
    ensures Extend(d, |d|, bytes) == d + bytes
  {
  }

  lemma UniformSnoc(bs: seq<seq<Byte>>, b: seq<Byte>, base: nat)
    requires Uniform(bs, base) && |b| == base
    ensures Uniform(bs + [b], base)
  {
  }

  lemma {:induction false} JoinLength(bs: seq<seq<Byte>>, base: nat)
    requires Uniform(bs, base)
    ensures |Join(bs)| == BlockStart(|bs|, base)
  {
    if bs != [] {
      JoinLength(bs[1..], base);
      BlocksAdd(|bs| - 1, 1, base);
    }
  }

  lemma {:induction false} JoinAppend(a: seq<seq<Byte>>, b: seq<seq<Byte>>)
    ensures Join(a + b) == Join(a) + Join(b)
  {
    if a == [] {
      assert a + b == b;
    } else {
      assert (a + b)[1..] == a[1..] + b;
      JoinAppend(a[1..], b);
    }
  }

  lemma JoinPrefix(bs: seq<seq<Byte>>, n: nat, base: nat)
    requires Uniform(bs, base) && n <= |bs|
    ensures BlockStart(n, base) <= |Join(bs)| && Join(bs)[..BlockStart(n, base)] == Join(bs[..n])
  {
    assert bs == bs[..n] + bs[n..];
    JoinAppend(bs[..n], bs[n..]);
    JoinLength(bs[..n], base);
  }

  /** The flat bytes around block i. */
  lemma JoinSplit(bs: seq<seq<Byte>>, i: nat)
    requires i < |bs|
    ensures Join(bs) == Join(bs[..i]) + bs[i] + Join(bs[i + 1..])
  {
    var rest := bs[i..];
    assert rest[0] == bs[i] && rest[1..] == bs[i + 1..];
    assert bs == bs[..i] + rest;
    JoinAppend(bs[..i], rest);
  }

  /** A range inside one block is a range of the flat bytes. */
  lemma JoinRange(bs: seq<seq<Byte>>, base: nat, i: nat, o: nat, n: nat)
    requires Uniform(bs, base) && i < |bs| && o + n <= base
    ensures BlockStart(i, base) + o + n <= |Join(bs)|
    ensures bs[i][o..o + n] == Join(bs)[BlockStart(i, base) + o..BlockStart(i, base) + o + n]
  {
    JoinSplit(bs, i);
    JoinLength(bs[..i], base);
  }

  /** Overwriting inside one block overwrites the flat bytes. */
  lemma JoinUpdate(bs: seq<seq<Byte>>, base: nat, i: nat, o: nat, chunk: seq<Byte>)
    requires Uniform(bs, base) && i < |bs| && o + |chunk| <= base
    ensures BlockStart(i, base) + o + |chunk| <= |Join(bs)|
    ensures Join(bs[i := Overwrite(bs[i], o, chunk)]) == Overwrite(Join(bs), BlockStart(i, base) + o, chunk)
  {
    var bs' := bs[i := Overwrite(bs[i], o, chunk)];
    JoinSplit(bs, i);
    JoinSplit(bs', i);
    assert bs'[..i] == bs[..i] && bs'[i + 1..] == bs[i + 1..];
    JoinLength(bs[..i], base);
    OverwriteInside(Join(bs[..i]), bs[i], Join(bs[i + 1..]), o, chunk);
  }

  // ---------------------------------------------------------------- arithmetic of blocks

  lemma BlocksAdd(a: nat, b: nat, base: nat)
    ensures BlockStart(a + b, base) == BlockStart(a, base) + BlockStart(b, base)
    ensures BlockStart(0, base) == 0 && BlockStart(1, base) == base
  {
  }

  lemma Below(a: nat, b: nat, base: nat)
    requires base >= 1
    ensures a <= b <==> BlockStart(a, base) <= BlockStart(b, base)
  {
    if a <= b { BlocksAdd(a, b - a, base); } else { BlocksAdd(b, a - b, base); }
  }

  lemma CursorIndex(at: nat, o: nat, base: nat)
    requires o < base
    ensures BlockOf(BlockStart(at, base) + o, base) == at && (BlockStart(at, base) + o) % base == o
  {
    var x := at * base + o;
    var q, r := x / base, x % base;
    assert x == q * base + r;
    Below(at + 1, q, base);
    Below(q + 1, at, base);
    assert (at + 1) * base == at * base + base && (q + 1) * base == q * base + base;
  }

  /** The block a position is in, and its offset there. */
  lemma PositionIndex(p: nat, base: nat)
    requires base >= 1
    ensures p == BlockStart(BlockOf(p, base), base) + p % base && p % base < base
  {
  }

  lemma PositionRange(p: nat, base: nat)
    requires base >= 1
    ensures BlockStart(BlockOf(p, base), base) <= p < BlockStart(BlockOf(p, base), base) + base
  {
    PositionIndex(p, base);
  }

  /** A position is in block number `blocks`, past the last, exactly when it is the capacity. */
  lemma EndIndex(blocks: nat, p: nat, base: nat)
    requires base >= 1 && p <= BlockStart(blocks, base)
    ensures BlockOf(p, base) <= blocks && (BlockOf(p, base) == blocks <==> p == BlockStart(blocks, base))
  {
    PositionIndex(p, base);
    Below(blocks, BlockOf(p, base), base);
    CursorIndex(blocks, 0, base);
    Below(BlockOf(p, base), blocks, base);
  }

  /** The number of blocks that hold `need` bytes. */
  function BlocksFor(need: nat, base: nat): nat
    requires base >= 1
  {
    (need + base - 1) / base
  }

  /** Rounding up: enough blocks, and no more than needed. */
  lemma CeilDiv(need: nat, base: nat)
    requires base >= 1 && need >= 1
    ensures var count := BlocksFor(need, base);
            count >= 1 && need <= BlockStart(count, base) < need + base
  {
    var count := (need + base - 1) / base;
    PositionIndex(need + base - 1, base);
    CursorIndex(1, 0, base);
  }
}
