/** The encodings of `ByteArray`: fixed-width integers in either byte order, base-128 varints, the
    zigzag pair, and length-prefixed strings, as functions on byte sequences. */
module Codec {
  import opened Flat
  import opened Wrappers

  function Pow(b: nat, e: nat): (r: nat)
    ensures b >= 1 ==> r >= 1
  {
    if e == 0 then 1 else b * Pow(b, e - 1)
  }

  function Reverse(s: seq<Byte>): (r: seq<Byte>)
    ensures |r| == |s|
  {
    if s == [] then [] else Reverse(s[1..]) + [s[0]]
  }

  lemma {:induction false} ReverseAppend(a: seq<Byte>, b: seq<Byte>)
    ensures Reverse(a + b) == Reverse(b) + Reverse(a)
  {
    if a == [] {
      assert a + b == b;
    } else {
      assert (a + b)[1..] == a[1..] + b;
      ReverseAppend(a[1..], b);
    }
  }

  lemma {:induction false} ReverseTwice(s: seq<Byte>)
    ensures Reverse(Reverse(s)) == s
  {
    if s != [] {
      ReverseAppend(Reverse(s[1..]), [s[0]]);
      ReverseTwice(s[1..]);
    }
  }

  // ---------------------------------------------------------------- fixed width

  /** The w bytes of n, lowest first. */
  function LittleBytes(n: nat, w: nat): (r: seq<Byte>)
    ensures |r| == w
  {
    if w == 0 then [] else [n % 256] + LittleBytes(n / 256, w - 1)
  }

  function LittleValue(bs: seq<Byte>): (r: nat)
  {
    if bs == [] then 0 else bs[0] + 256 * LittleValue(bs[1..])
  }

  lemma {:induction false} LittleBound(bs: seq<Byte>)
    ensures LittleValue(bs) < Pow(256, |bs|)
  {
    if bs != [] { LittleBound(bs[1..]); }
  }

  lemma {:induction false} LittleRoundTrip(n: nat, w: nat)
    ensures LittleValue(LittleBytes(n, w)) == n % Pow(256, w)
    ensures n < Pow(256, w) ==> LittleValue(LittleBytes(n, w)) == n
  {
    if w > 0 {
      LittleRoundTrip(n / 256, w - 1);
      assert LittleBytes(n, w)[1..] == LittleBytes(n / 256, w - 1);
      SplitMod(n, Pow(256, w - 1));
      if n < Pow(256, w) { SmallMod(n, Pow(256, w)); }
    } else {
      assert Pow(256, 0) == 1;
    }
  }

  lemma SplitMod(n: nat, m: nat)
    requires m >= 1
    ensures n % (256 * m) == n % 256 + 256 * (n / 256 % m)
  {
    var q, r := n / 256 / m, n / 256 % m;
    assert n / 256 == q * m + r;
    assert n == q * (256 * m) + (256 * r + n % 256);
    assert 256 * r + n % 256 < 256 * m;
    ModUnique(n, 256 * m, q, 256 * r + n % 256);
  }

  lemma ModUnique(n: nat, d: nat, q: nat, r: nat)
    requires n == q * d + r && r < d
    ensures n % d == r && n / d == q
  {
    CursorIndex(q, r, d);
  }

  lemma SmallMod(n: nat, d: nat)
    requires n < d
    ensures n % d == n
  {
    ModUnique(n, d, 0, n);
  }

  lemma {:induction false} LittleInjective(bs: seq<Byte>)
    ensures LittleBytes(LittleValue(bs), |bs|) == bs
  {
    if bs != [] {
      LittleInjective(bs[1..]);
      var v := LittleValue(bs[1..]);
      assert (bs[0] + 256 * v) / 256 == v && (bs[0] + 256 * v) % 256 == bs[0];
    }
  }

  lemma {:induction false} LittleDigit(n: nat, w: nat, k: nat)
    requires k < w
    ensures LittleBytes(n, w)[k] == n / Pow(256, k) % 256
  {
    if k == 0 {
      assert Pow(256, 0) == 1;
    } else {
      LittleDigit(n / 256, w - 1, k - 1);
      DivSplit(n, 256, Pow(256, k - 1));
    }
  }

  lemma MulSum(b: nat, x: nat, y: nat)
    ensures b * (x + y) == b * x + b * y
  {
  }

  lemma MulSwap(b: nat, q: nat, m: nat)
    ensures b * (q * m) == q * (b * m)
  {
  }

  lemma Products(b: nat, s: nat, q: nat, m: nat, r: nat)
    requires s < b && r < m
    ensures b * (q * m + r) + s == q * (b * m) + (b * r + s) && b * r + s < b * m
  {
    MulSum(b, q * m, r);
    MulSwap(b, q, m);
    MulSum(b, r, 1);
    MulLe(r + 1, m, b);
    assert b * (r + 1) == (r + 1) * b && b * m == m * b;
  }

  lemma Divide(n: nat, d: nat)
    requires d >= 1
    ensures n == n / d * d + n % d && n % d < d
  {
  }

  /** Dividing twice is dividing by the product. */
  lemma DivSplit(n: nat, b: nat, m: nat)
    requires b >= 1 && m >= 1
    ensures b * m >= 1 && n / b / m == n / (b * m)
  {
    Divide(n, b);
    Divide(n / b, m);
    var c, s := n / b, n % b;
    var q, r := c / m, c % m;
    Products(b, s, q, m, r);
    assert c * b == b * c;
    ModUnique(n, b * m, q, b * r + s);
  }

  lemma {:induction false} ReverseAt(s: seq<Byte>, k: nat)
    requires k < |s|
    ensures Reverse(s)[k] == s[|s| - 1 - k]
  {
    if k < |s| - 1 { ReverseAt(s[1..], k); }
  }

  /** The sum of the first k bytes, each times the power of 256 its place stands for: the first byte is the
      lowest in little-endian order and the highest in big-endian order. */
  function PlaceSum(e: Endian, bs: seq<Byte>, k: nat): nat
    requires k <= |bs|
  {
    if k == 0 then 0
    else PlaceSum(e, bs, k - 1) + bs[k - 1] * Pow(256, if e == Little then k - 1 else |bs| - k)
  }

  lemma {:induction false} LittleSum(bs: seq<Byte>, k: nat)
    requires k <= |bs|
    ensures LittleValue(bs[..k]) == PlaceSum(Little, bs, k)
  {
    if k > 0 {
      LittleSum(bs, k - 1);
      LittleSnoc(bs[..k - 1], bs[k - 1]);
      assert bs[..k] == bs[..k - 1] + [bs[k - 1]];
    } else {
      assert bs[..0] == [];
    }
  }

  lemma {:induction false} LittleSnoc(bs: seq<Byte>, b: Byte)
    ensures LittleValue(bs + [b]) == LittleValue(bs) + b * Pow(256, |bs|)
  {
    if bs == [] {
      assert bs + [b] == [b] && [b][1..] == [] && Pow(256, 0) == 1;
    } else {
      assert (bs + [b])[1..] == bs[1..] + [b];
      LittleSnoc(bs[1..], b);
      MulAssoc(256, b, Pow(256, |bs| - 1));
      MulAssoc(b, 256, Pow(256, |bs| - 1));
    }
  }

  /** The value of the bytes from k on, read backwards: the tail of the big-endian sum. */
  lemma {:induction false} BigSum(bs: seq<Byte>, k: nat)
    requires k <= |bs|
    ensures LittleValue(Reverse(bs)) == PlaceSum(Big, bs, k) + LittleValue(Reverse(bs[k..]))
  {
    if k == 0 {
      assert bs[0..] == bs;
    } else {
      BigSum(bs, k - 1);
      var tail := bs[k - 1..];
      assert tail[1..] == bs[k..];
      LittleSnoc(Reverse(bs[k..]), tail[0]);
    }
  }

  /** The bytes of n in a given order. */
  function Ordered(e: Endian, n: nat, w: nat): (r: seq<Byte>)
    ensures |r| == w
  {
    if e == Little then LittleBytes(n, w) else Reverse(LittleBytes(n, w))
  }

  function OrderedValue(e: Endian, bs: seq<Byte>): nat {
    LittleValue(if e == Little then bs else Reverse(bs))
  }

  /** The bytes are the digits of n in base 256, the lowest first when little-endian, the highest first when
      big-endian. */
  predicate FixedDigits(e: Endian, n: nat, bs: seq<Byte>) {
    forall k :: 0 <= k < |bs| ==> bs[k] == n / Pow(256, if e == Little then k else |bs| - 1 - k) % 256
  }

  lemma OrderedDigits(e: Endian, n: nat, w: nat)
    ensures FixedDigits(e, n, Ordered(e, n, w))
  {
    forall k | 0 <= k < w
      ensures Ordered(e, n, w)[k] == n / Pow(256, if e == Little then k else w - 1 - k) % 256
    {
      OrderedDigit(e, n, w, k);
    }
  }

  lemma OrderedDigit(e: Endian, n: nat, w: nat, k: nat)
    requires k < w
    ensures Ordered(e, n, w)[k] == n / Pow(256, if e == Little then k else w - 1 - k) % 256
  {
    var at := if e == Little then k else w - 1 - k;
    LittleDigit(n, w, at);
    ReverseAt(LittleBytes(n, w), k);
  }

  lemma OrderedSum(e: Endian, bs: seq<Byte>)
    ensures OrderedValue(e, bs) == PlaceSum(e, bs, |bs|)
  {
    if e == Little {
      LittleSum(bs, |bs|);
      assert bs[..|bs|] == bs;
    } else {
      BigSum(bs, |bs|);
      assert bs[|bs|..] == [];
    }
  }

  /** `byteswap`: the number whose bytes are those of n backwards. */
  function Byteswap(n: nat, w: nat): nat {
    LittleValue(Reverse(LittleBytes(n, w)))
  }

  /** What `writeFuintN` stores: the host's bytes of the value, swapped first if the orders differ. */
  function EncodeFixed(host: Endian, e: Endian, n: nat, w: nat): (r: seq<Byte>)
    ensures |r| == w
  {
    Ordered(host, if e != host then Byteswap(n, w) else n, w)
  }

  function DecodeFixed(host: Endian, e: Endian, bs: seq<Byte>): nat {
    var v := OrderedValue(host, bs);
    if e == host then v else Byteswap(v, |bs|)
  }

  lemma ByteswapBytes(n: nat, w: nat)
    ensures LittleBytes(Byteswap(n, w), w) == Reverse(LittleBytes(n, w))
    ensures Byteswap(n, w) < Pow(256, w)
  {
    LittleInjective(Reverse(LittleBytes(n, w)));
    LittleBound(Reverse(LittleBytes(n, w)));
  }

  /** Swapping twice gives the number back. */
  lemma ByteswapTwice(n: nat, w: nat)
    requires n < Pow(256, w)
    ensures Byteswap(Byteswap(n, w), w) == n
  {
    ByteswapBytes(n, w);
    ReverseTwice(LittleBytes(n, w));
    LittleRoundTrip(n, w);
  }

  /** The stored bytes are those of the chosen order, whatever the host's. */
  lemma WireOrder(host: Endian, e: Endian, n: nat, w: nat)
    ensures EncodeFixed(host, e, n, w) == Ordered(e, n, w)
    ensures forall k :: 0 <= k < w ==>
              EncodeFixed(host, e, n, w)[k] == n / Pow(256, if e == Little then k else w - 1 - k) % 256
  {
    OrderedDigits(e, n, w);
    ByteswapBytes(n, w);
    ReverseTwice(LittleBytes(n, w));
  }

  lemma ReadOrder(host: Endian, e: Endian, bs: seq<Byte>)
    ensures DecodeFixed(host, e, bs) == OrderedValue(e, bs) == PlaceSum(e, bs, |bs|)
  {
    OrderedSum(e, bs);
    if e != host {
      LittleInjective(bs);
      LittleInjective(Reverse(bs));
      ReverseTwice(bs);
    }
  }

  /** Reading on any host what any host wrote. */
  lemma FixedRoundTrip(writer: Endian, reader: Endian, e: Endian, n: nat, w: nat)
    requires n < Pow(256, w)
    ensures DecodeFixed(reader, e, EncodeFixed(writer, e, n, w)) == n
  {
    WireOrder(writer, e, n, w);
    ReadOrder(reader, e, Ordered(e, n, w));
    ReverseTwice(LittleBytes(n, w));
    LittleRoundTrip(n, w);
  }

  /** The unsigned image of a signed number, and back. */
  function ToUnsigned(v: int, m: nat): int {
    if v < 0 then v + m else v
  }

  function ToSigned(n: nat, m: nat): int {
    if 2 * n < m then n else n - m
  }

  predicate InRange(v: int, signed: bool, m: nat) {
    if signed then 0 - m <= 2 * v < m else 0 <= v < m
  }

  /** The unsigned image of a number is the number modulo m, and the signed reading of an image is the one
      number in range that is congruent to it. */
  lemma TwosComplement(v: int, n: nat, m: nat)
    requires InRange(v, true, m) && n < m
    ensures ToUnsigned(v, m) == v % m
    ensures InRange(ToSigned(n, m), true, m) && ToSigned(n, m) % m == n
  {
    Congruent(if v < 0 then v + m else v, v, m);
    Congruent(n, ToSigned(n, m), m);
  }

  lemma Congruent(n: nat, v: int, m: nat)
    requires n < m && (v == n || v == n - m)
    ensures v % m == n
  {
  }

  // ---------------------------------------------------------------- varints

  /** `writeUint32/64`: seven bits a byte, low bits first, the top bit set on all but the last. */
  function EncodeVarint(n: nat): (r: seq<Byte>)
    ensures |r| >= 1
  {
    if n < 128 then [n] else [n % 128 + 128] + EncodeVarint(n / 128)
  }

  /** The bytes are digits of n in base 128, the lowest first, with the top bit set on all but the last. */
  predicate VarintDigits(n: nat, bs: seq<Byte>) {
    forall k :: 0 <= k < |bs| ==> bs[k] == n / Pow(128, k) % 128 + if k < |bs| - 1 then 128 else 0
  }

  lemma EncodedDigits(n: nat)
    ensures VarintDigits(n, EncodeVarint(n))
  {
    forall k | 0 <= k < |EncodeVarint(n)|
      ensures EncodeVarint(n)[k] == n / Pow(128, k) % 128 + if k < |EncodeVarint(n)| - 1 then 128 else 0
    {
      VarintDigit(n, k);
    }
  }

  lemma {:induction false} VarintDigit(n: nat, k: nat)
    requires k < |EncodeVarint(n)|
    ensures EncodeVarint(n)[k]
         == n / Pow(128, k) % 128 + if k < |EncodeVarint(n)| - 1 then 128 else 0
  {
    if k == 0 {
      assert Pow(128, 0) == 1;
    } else {
      VarintDigit(n / 128, k - 1);
      DivSplit(n, 128, Pow(128, k - 1));
      PowStep(128, k);
      hide Pow;
    }
  }

  /** The encoding is as long as base 128 needs and no longer. */
  lemma {:induction false} VarintLength(n: nat)
    ensures n < Pow(128, |EncodeVarint(n)|)
    ensures |EncodeVarint(n)| > 1 ==> n >= Pow(128, |EncodeVarint(n)| - 1)
  {
    if n >= 128 {
      VarintLength(n / 128);
      var k := |EncodeVarint(n / 128)|;
      assert Pow(128, k + 1) == 128 * Pow(128, k);
      if k > 1 { assert Pow(128, k) == 128 * Pow(128, k - 1); } else { assert Pow(128, 1) == 128 * Pow(128, 0); }
    } else {
      assert Pow(128, 1) == 128 * Pow(128, 0);
    }
  }

  lemma {:induction false} PowMonotone(b: nat, i: nat, j: nat)
    requires b >= 1 && i <= j
    ensures Pow(b, i) <= Pow(b, j)
  {
    if i < j {
      PowMonotone(b, i, j - 1);
      assert Pow(b, j) == b * Pow(b, j - 1);
      assert b * Pow(b, j - 1) >= Pow(b, j - 1);
    }
  }

  lemma VarintAtMost(n: nat, k: nat)
    requires n < Pow(128, k) && k >= 1
    ensures |EncodeVarint(n)| <= k
  {
    VarintLength(n);
    if |EncodeVarint(n)| > k { PowMonotone(128, k, |EncodeVarint(n)| - 1); }
  }

  /** Bitwise or. */
  function Or(a: nat, b: nat): nat {
    if a == 0 then b
    else (if a % 2 == 1 || b % 2 == 1 then 1 else 0) + 2 * Or(a / 2, b / 2)
  }

  /** Or of numbers with no common bits is their sum. */
  lemma {:induction false} OrDisjoint(a: nat, c: nat, k: nat)
    requires a < Pow(2, k)
    ensures Or(a, c * Pow(2, k)) == a + c * Pow(2, k)
  {
    if a != 0 {
      assert Pow(2, k) == 2 * Pow(2, k - 1);
      var d := c * Pow(2, k - 1);
      assert c * Pow(2, k) == 2 * d;
      OrDisjoint(a / 2, c, k - 1);
    }
  }

  /** `readUint32/64` from shift i: or in seven bits of each byte, cut to `bits` bits, until a byte
      below 0x80 or until the shift reaches the width. None when the bytes run out. */
  function DecodeVarint(bs: seq<Byte>, i: nat, bits: nat, acc: nat): (r: Option<(nat, nat)>)
    ensures r.Some? ==> r.value.1 <= |bs|
    decreases |bs|
  {
    if i >= bits then Some((acc, 0))
    else if bs == [] then None
    else
      var acc' := Or(acc, bs[0] % 128 * Pow(2, i) % Pow(2, bits));
      if bs[0] < 128 then Some((acc', 1))
      else
        var r := DecodeVarint(bs[1..], i + 7, bits, acc');
        if r.Some? then Some((r.value.0, r.value.1 + 1)) else None
  }

  lemma MulAssoc(a: nat, b: nat, c: nat)
    ensures a * (b * c) == a * b * c
  {
  }

  lemma PowStep(b: nat, i: nat)
    requires i > 0
    ensures Pow(b, i) == b * Pow(b, i - 1)
  {
  }

  lemma {:induction false} PowAdd(b: nat, i: nat, j: nat)
    ensures Pow(b, i + j) == Pow(b, i) * Pow(b, j)
  {
    if i > 0 {
      PowAdd(b, i - 1, j);
      MulAssoc(b, Pow(b, i - 1), Pow(b, j));
      PowStep(b, i);
      PowStep(b, i + j);
    }
  }

  lemma Pow7()
    ensures Pow(2, 7) == 128
  {
    assert Pow(2, 4) == 16 && Pow(2, 7) == 8 * Pow(2, 4);
  }

  lemma MulLe(a: nat, b: nat, c: nat)
    requires a <= b
    ensures a * c <= b * c
  {
  }

  /** The low seven bits and the rest, shifted. */
  lemma Pieces(n: nat, p: nat)
    ensures n * p == n % 128 * p + n / 128 * (128 * p)
    ensures n % 128 * p <= n * p && n % 128 * p <= 127 * p
  {
    var lo, hi := n % 128, n / 128;
    assert n == lo + 128 * hi;
    assert 128 * hi * p == hi * (128 * p);
    MulLe(lo, n, p);
    MulLe(lo, 127, p);
  }

  /** Decoding an encoding, whatever follows it, gives the number and stops at its end. */
  lemma {:induction false} VarintRoundTripAt(n: nat, rest: seq<Byte>, i: nat, bits: nat, acc: nat)
    requires i < bits && acc < Pow(2, i) && acc + n * Pow(2, i) < Pow(2, bits)
    ensures DecodeVarint(EncodeVarint(n) + rest, i, bits, acc) == Some((acc + n * Pow(2, i), |EncodeVarint(n)|))
    decreases n
  {
    hide Pow, Or;
    var bs := EncodeVarint(n) + rest;
    var p := Pow(2, i);
    if n < 128 {
      SmallMod(n * p, Pow(2, bits));
      OrDisjoint(acc, n, i);
    } else {
      var lo, hi := n % 128, n / 128;
      Pieces(n, p);
      SmallMod(lo * p, Pow(2, bits));
      OrDisjoint(acc, lo, i);
      NextShift(n, i, bits);
      assert bs[0] == lo + 128 && bs[1..] == EncodeVarint(hi) + rest;
      VarintRoundTripAt(hi, rest, i + 7, bits, acc + lo * p);
    }
  }

  /** A number with more than seven bits left does not fit in the last group. */
  lemma NextShift(n: nat, i: nat, bits: nat)
    requires n >= 128 && n * Pow(2, i) < Pow(2, bits)
    ensures Pow(2, i + 7) == 128 * Pow(2, i)
    ensures i + 7 < bits
  {
    hide Pow;
    PowAdd(2, 7, i);
    Pow7();
    MulLe(128, n, Pow(2, i));
    if bits <= i + 7 { PowMonotone(2, bits, i + 7); }
  }

  lemma VarintRoundTrip(n: nat, rest: seq<Byte>, bits: nat)
    requires n < Pow(2, bits) && bits > 0
    ensures DecodeVarint(EncodeVarint(n) + rest, 0, bits, 0) == Some((n, |EncodeVarint(n)|))
  {
    VarintRoundTripAt(n, rest, 0, bits, 0);
  }

  lemma {:induction false} OrBound(a: nat, b: nat, k: nat)
    requires a < Pow(2, k) && b < Pow(2, k)
    ensures Or(a, b) < Pow(2, k)
  {
    if a != 0 {
      assert Pow(2, k) == 2 * Pow(2, k - 1);
      OrBound(a / 2, b / 2, k - 1);
    }
  }

  /** k bytes decode to less than 128 to the k. */
  lemma {:induction false} DecodeBound(bs: seq<Byte>, i: nat, bits: nat, acc: nat)
    requires acc < Pow(2, i)
    ensures var r := DecodeVarint(bs, i, bits, acc);
            r.Some? ==> r.value.0 < Pow(2, i + 7 * r.value.1)
    decreases |bs|
  {
    if i < bits && bs != [] {
      var part := bs[0] % 128 * Pow(2, i) % Pow(2, bits);
      PowAdd(2, 7, i);
      Pow7();
      ModLe(bs[0] % 128 * Pow(2, i), Pow(2, bits));
      MulLe(bs[0] % 128, 127, Pow(2, i));
      OrBound(acc, part, i + 7);
      if bs[0] >= 128 { DecodeBound(bs[1..], i + 7, bits, Or(acc, part)); }
    }
  }

  lemma ModLe(a: nat, d: nat)
    requires d >= 1
    ensures a % d <= a
  {
    if a < d { SmallMod(a, d); }
  }

  /** The sum of the low seven bits of the first k bytes, lowest first. */
  function SevenSum(bs: seq<Byte>, k: nat): nat
    requires k <= |bs|
  {
    if k == 0 then 0 else SevenSum(bs, k - 1) + bs[k - 1] % 128 * Pow(2, 7 * (k - 1))
  }

  lemma {:induction false} SevenBound(bs: seq<Byte>, k: nat)
    requires k <= |bs|
    ensures SevenSum(bs, k) < Pow(2, 7 * k)
  {
    if k > 0 {
      SevenBound(bs, k - 1);
      Pow7();
      PowAdd(2, 7, 7 * (k - 1));
      MulLe(bs[k - 1] % 128, 127, Pow(2, 7 * (k - 1)));
    }
  }

  /** Adding a group to a number below its place, cut to the width. */
  lemma OrGroup(acc: nat, c: nat, i: nat, bits: nat)
    requires acc < Pow(2, i) && i < bits
    ensures Or(acc, c * Pow(2, i) % Pow(2, bits)) == (acc + c * Pow(2, i)) % Pow(2, bits)
  {
    hide Pow, Or;
    var p, d := Pow(2, i), Pow(2, bits - i);
    PowAdd(2, bits - i, i);
    assert Pow(2, bits) == d * p;
    var q, r := c / d, c % d;
    assert c == q * d + r;
    MulAssoc(q, d, p);
    assert c * p == q * (d * p) + r * p;
    MulLe(r + 1, d, p);
    assert (r + 1) * p == r * p + p;
    ModUnique(c * p, d * p, q, r * p);
    ModUnique(acc + c * p, d * p, q, acc + r * p);
    OrDisjoint(acc, r, i);
  }

  /** The bytes before the k-th all have their top bit set. */
  predicate AllContinue(bs: seq<Byte>, k: nat) {
    k <= |bs| && forall j :: 0 <= j < k ==> bs[j] >= 128
  }

  /** One byte of the decoder. */
  lemma DecodeStep(bs: seq<Byte>, k: nat, bits: nat)
    requires k < |bs| && 7 * k < bits
    ensures Or(SevenSum(bs, k), bs[k] % 128 * Pow(2, 7 * k) % Pow(2, bits)) == SevenSum(bs, k + 1) % Pow(2, bits)
    ensures SevenSum(bs, k) % Pow(2, bits) == SevenSum(bs, k)
  {
    hide Pow, Or;
    SevenBound(bs, k);
    OrGroup(SevenSum(bs, k), bs[k] % 128, 7 * k, bits);
    PowMonotone(2, 7 * k, bits);
    SmallMod(SevenSum(bs, k), Pow(2, bits));
  }

  /** The decoder from byte k on, k bytes having been read. */
  lemma {:induction false} DecodeFrom(bs: seq<Byte>, k: nat, bits: nat)
    requires AllContinue(bs, k) && (k > 0 ==> 7 * (k - 1) < bits)
    ensures var r := DecodeVarint(bs[k..], 7 * k, bits, SevenSum(bs, k) % Pow(2, bits));
            && (r.None? <==> AllContinue(bs, |bs|) && 7 * |bs| < bits)
            && (r.Some? ==>
                  var end := k + r.value.1;
                  && end <= |bs| && r.value.0 == SevenSum(bs, end) % Pow(2, bits)
                  && (end > 0 ==> AllContinue(bs, end - 1) && 7 * (end - 1) < bits)
                  && (7 * end < bits ==> end > 0 && bs[end - 1] < 128))
    decreases |bs| - k
  {
    hide Pow, Or, SevenSum;
    var rest := bs[k..];
    if 7 * k < bits && k < |bs| {
      DecodeStep(bs, k, bits);
      assert rest[0] == bs[k] && rest[1..] == bs[k + 1..];
      if bs[k] >= 128 { DecodeFrom(bs, k + 1, bits); }
    }
  }

  /** What any bytes decode to: the groups up to the first byte below 0x80, or as many as the width holds,
      lowest first, cut to the width; nothing exactly when the bytes run out before that. */
  lemma DecodeMeans(bs: seq<Byte>, bits: nat)
    requires bits > 0
    ensures var r := DecodeVarint(bs, 0, bits, 0);
            && (r.None? <==> 7 * |bs| < bits && forall j :: 0 <= j < |bs| ==> bs[j] >= 128)
            && (r.Some? ==>
                  var used := r.value.1;
                  && 1 <= used <= |bs| && 7 * (used - 1) < bits
                  && (forall j :: 0 <= j < used - 1 ==> bs[j] >= 128)
                  && (bs[used - 1] < 128 || 7 * used >= bits)
                  && r.value.0 == SevenSum(bs, used) % Pow(2, bits))
  {
    hide Pow, Or;
    assert bs[0..] == bs && SevenSum(bs, 0) == 0;
    SmallMod(0, Pow(2, bits));
    DecodeFrom(bs, 0, bits);
  }

  /** No shorter byte string decodes to the same number. */
  lemma VarintShortest(bs: seq<Byte>, bits: nat)
    requires bits > 0
    ensures var r := DecodeVarint(bs, 0, bits, 0);
            r.Some? ==> r.value.1 >= 1 && |EncodeVarint(r.value.0)| <= r.value.1
  {
    var r := DecodeVarint(bs, 0, bits, 0);
    DecodeBound(bs, 0, bits, 0);
    if r.Some? {
      SevenBits(r.value.1);
      VarintAtMost(r.value.0, r.value.1);
    }
  }

  /** At most 5 bytes for 32 bits and 10 for 64. */
  lemma VarintWidths(n: nat)
    ensures n < Pow(2, 32) ==> |EncodeVarint(n)| <= 5
    ensures n < Pow(2, 64) ==> |EncodeVarint(n)| <= 10
  {
    Pow7();
    SevenBits(5);
    SevenBits(10);
    PowMonotone(2, 32, 35);
    PowMonotone(2, 64, 70);
    if n < Pow(2, 32) { VarintAtMost(n, 5); }
    if n < Pow(2, 64) { VarintAtMost(n, 10); }
  }

  lemma {:induction false} SevenBits(k: nat)
    ensures Pow(128, k) == Pow(2, 7 * k)
  {
    if k > 0 {
      SevenBits(k - 1);
      PowAdd(2, 7, 7 * (k - 1));
      Pow7();
    }
  }

  // ---------------------------------------------------------------- zigzag

  /** `EncodeZigzag32/64` as coded: the parameter is unsigned, so it is always doubled. */
  function EncodeZigzag(v: nat, bits: nat): nat {
    v * 2 % Pow(2, bits)
  }

  /** `DecodeZigzag32/64`: half the number, complemented when it was odd. */
  function DecodeZigzag(v: nat, bits: nat): int {
    if v % 2 == 0 then v / 2 else Pow(2, bits) - 1 - v / 2
  }

  /** Through the zigzag pair a number comes back exactly when it is not negative; a negative one
      comes back without its sign bit. */
  lemma ZigzagRoundTrip(v: int, bits: nat)
    requires bits >= 1 && InRange(v, true, Pow(2, bits))
    ensures 0 <= ToUnsigned(v, Pow(2, bits))
    ensures var back := DecodeZigzag(EncodeZigzag(ToUnsigned(v, Pow(2, bits)), bits), bits);
            && back >= 0 && (ToSigned(back, Pow(2, bits)) == v <==> v >= 0)
            && (v < 0 ==> ToSigned(back, Pow(2, bits)) == v + Pow(2, bits - 1))
  {
    hide Pow, EncodeZigzag;
    PowStep(2, bits);
    if v >= 0 { ZigzagKeeps(v, bits); } else { ZigzagDrops(v, bits); }
  }

  /** The zigzag code proper: 0, -1, 1, -2, ... are numbered 0, 1, 2, 3, ... */
  function ZigzagCode(v: int): nat {
    if v >= 0 then 2 * v else -2 * v - 1
  }

  /** The decoder inverts the zigzag code on every number of the width; the encoder computes it exactly on the
      numbers that are not negative. */
  lemma ZigzagProper(v: int, bits: nat)
    requires bits >= 1 && InRange(v, true, Pow(2, bits))
    ensures 0 <= ToUnsigned(v, Pow(2, bits)) && ZigzagCode(v) < Pow(2, bits)
    ensures DecodeZigzag(ZigzagCode(v), bits) == ToUnsigned(v, Pow(2, bits))
    ensures EncodeZigzag(ToUnsigned(v, Pow(2, bits)), bits) == ZigzagCode(v) <==> v >= 0
  {
    hide Pow, EncodeZigzag;
    PowStep(2, bits);
    if v >= 0 { ZigzagKeeps(v, bits); } else { ZigzagDrops(v, bits); }
  }

  lemma ZigzagKeeps(v: nat, bits: nat)
    requires 2 * v < Pow(2, bits)
    ensures EncodeZigzag(v, bits) == 2 * v && DecodeZigzag(2 * v, bits) == v
  {
    hide Pow;
    SmallMod(2 * v, Pow(2, bits));
  }

  lemma ZigzagDrops(v: int, bits: nat)
    requires v < 0 <= v + Pow(2, bits) && 0 <= 2 * v + Pow(2, bits)
    ensures EncodeZigzag(v + Pow(2, bits), bits) == 2 * v + Pow(2, bits)
  {
    hide Pow;
    ModUnique(2 * v + 2 * Pow(2, bits), Pow(2, bits), 1, 2 * v + Pow(2, bits));
  }

  /** `writeInt32/64` then `readInt32/64`, whatever bytes follow: the read takes exactly the bytes
      written, and gives the number back exactly when it is not negative. */
  lemma SignedVarintRoundTrip(v: int, bits: nat, rest: seq<Byte>)
    requires bits >= 1 && InRange(v, true, Pow(2, bits))
    ensures 0 <= ToUnsigned(v, Pow(2, bits))
    ensures var bytes := EncodeVarint(EncodeZigzag(ToUnsigned(v, Pow(2, bits)), bits));
            var r := DecodeVarint(bytes + rest, 0, bits, 0);
            && r.Some? && r.value.1 == |bytes| && DecodeZigzag(r.value.0, bits) >= 0
            && (ToSigned(DecodeZigzag(r.value.0, bits), Pow(2, bits)) == v <==> v >= 0)
  {
    ZigzagRoundTrip(v, bits);
    var z := EncodeZigzag(ToUnsigned(v, Pow(2, bits)), bits);
    assert 0 <= z < Pow(2, bits);
    VarintRoundTrip(z, rest, bits);
  }

  lemma ThirtyTwoBits()
    ensures Pow(2, 31) == 0x8000_0000 && Pow(2, 32) == 0x1_0000_0000
  {
    hide Pow;
    Pow7();
    PowAdd(2, 7, 7);
    PowAdd(2, 14, 14);
    PowAdd(2, 28, 3);
    PowStep(2, 32);
    PowThree();
  }

  lemma PowThree()
    ensures Pow(2, 3) == 8
  {
  }

  lemma SixteenBits()
    ensures Pow(256, 2) == 65536
  {
    PowStep(256, 2);
    PowStep(256, 1);
  }

  /** -1 written as a 32-bit integer comes back as the largest one. */
  lemma MinusOneLost(rest: seq<Byte>)
    ensures var bytes := EncodeVarint(EncodeZigzag(0xFFFF_FFFF, 32));
            var r := DecodeVarint(bytes + rest, 0, 32, 0);
            && ToUnsigned(-1, Pow(2, 32)) == 0xFFFF_FFFF
            && r.Some? && DecodeZigzag(r.value.0, 32) == 0x7FFF_FFFF
            && ToSigned(DecodeZigzag(r.value.0, 32), Pow(2, 32)) == 0x7FFF_FFFF
  {
    hide Pow, EncodeVarint, DecodeVarint;
    ThirtyTwoBits();
    SignedVarintRoundTrip(-1, 32, rest);
    ZigzagRoundTrip(-1, 32);
    VarintRoundTrip(EncodeZigzag(0xFFFF_FFFF, 32), rest, 32);
  }
}
