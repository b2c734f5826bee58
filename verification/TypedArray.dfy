/** The typed reads and writes of `ByteArray`, and what a list of values becomes when it is written
    and read back. */
module TypedArray {
  import opened Wrappers
  import opened Flat
  import opened Codec
  import opened ByteArrays

  // ---------------------------------------------------------------- writes

  /** `writeFuint16/32/64` (and their signed forms on the unsigned image). */
  method WriteFixed(ba: ByteArray, host: Endian, n: nat, w: nat)
    requires ba.Valid()
    modifies ba, ba.nodes, Arrays(ba.nodes)
    ensures ba.Wrote(Ordered(ba.endian, n, w))
    ensures ba.position == old(ba.position) + w && FixedDigits(ba.endian, n, Written(ba, old(ba.position)))
  {
    var value := n;
    if ba.endian != host { value := Byteswap(n, w); }
    WireOrder(host, ba.endian, n, w);
    OrderedDigits(ba.endian, n, w);
    hide Ordered, Byteswap, Pow, FixedDigits, Extend, ByteArray.Links, ByteArray.CursorAt;
    ba.Write(Ordered(host, value, w));
    Stands(old(ba.Data()), old(ba.position), Ordered(ba.endian, n, w));
  }

  /** The bytes between p and the position. */
  ghost function Written(ba: ByteArray, p: nat): seq<Byte>
    requires ba.Valid() && p <= ba.position
    reads ba, ba.nodes, Arrays(ba.nodes)
  {
    ba.Data()[p..ba.position]
  }

  /** Where written bytes are found. */
  lemma Stands(data: seq<Byte>, p: nat, bytes: seq<Byte>)
    requires p <= |data|
    ensures Extend(data, p, bytes)[p..p + |bytes|] == bytes
  {
  }

  /** The byte buffer `writeUint32/64` fills, in a local array of 5 or 10 bytes. */
  method VarintBytes(n: nat, room: nat) returns (bytes: seq<Byte>)
    requires |EncodeVarint(n)| <= room
    ensures bytes == EncodeVarint(n)
  {
    var tmp := new Byte[room];
    var value, i := n, 0;
    while value >= 0x80
      invariant 0 <= i && i + |EncodeVarint(value)| <= room
      invariant tmp[..i] + EncodeVarint(value) == EncodeVarint(n)
      decreases value
    {
      ghost var before := tmp[..i];
      tmp[i] := value % 128 + 128;
      i := i + 1;
      assert tmp[..i] == before + [value % 128 + 128];
      value := value / 128;
    }
    tmp[i] := value;
    i := i + 1;
    return tmp[..i];
  }

  method WriteVarint(ba: ByteArray, n: nat, bits: nat)
    requires ba.Valid() && (bits == 32 || bits == 64) && n < Pow(2, bits)
    modifies ba, ba.nodes, Arrays(ba.nodes)
    ensures ba.Wrote(EncodeVarint(n))
    ensures old(ba.position) <= ba.position && VarintDigits(n, Written(ba, old(ba.position)))
  {
    EncodedDigits(n);
    hide Pow, EncodeVarint, VarintDigits, Extend, ByteArray.Links, ByteArray.CursorAt, ByteArray.Data;
    VarintWidths(n);
    var bytes := VarintBytes(n, if bits == 32 then 5 else 10);
    ba.StillLinked();
    ba.Write(bytes);
    Stands(old(ba.Data()), old(ba.position), bytes);
  }

  /** The two writes of a string. */
  method WriteParts(ba: ByteArray, host: Endian, s: seq<Byte>, w: nat)
    requires ba.Valid()
    modifies ba, ba.nodes, Arrays(ba.nodes)
    ensures ba.Wrote(Ordered(ba.endian, |s| % Pow(256, w), w) + s)
  {
    hide ByteArray.Links, ByteArray.CursorAt, ByteArray.Data, Extend, Ordered, Pow, FixedDigits, TextBytes;
    ghost var len := Ordered(ba.endian, |s| % Pow(256, w), w);
    WriteFixed(ba, host, |s| % Pow(256, w), w);
    ba.Write(s);
    ExtendTwice(old(ba.Data()), old(ba.position), len, s);
  }

  /** The digits of the length, cut to its field, and then the string. */
  predicate TextBytes(e: Endian, w: nat, s: seq<Byte>, bytes: seq<Byte>) {
    |bytes| == w + |s| && FixedDigits(e, |s| % Pow(256, w), bytes[..w]) && bytes[w..] == s
  }

  lemma TextOrdered(e: Endian, s: seq<Byte>, w: nat)
    ensures TextBytes(e, w, s, Ordered(e, |s| % Pow(256, w), w) + s)
  {
    var len := Ordered(e, |s| % Pow(256, w), w);
    OrderedDigits(e, |s| % Pow(256, w), w);
    assert (len + s)[..w] == len && (len + s)[w..] == s;
  }

  /** `writeStringF16/32/64`: the length cut to the width of its field, then the bytes. */
  method WriteText(ba: ByteArray, host: Endian, s: seq<Byte>, w: nat)
    requires ba.Valid()
    modifies ba, ba.nodes, Arrays(ba.nodes)
    ensures ba.Wrote(Ordered(ba.endian, |s| % Pow(256, w), w) + s)
    ensures old(ba.position) <= ba.position && TextBytes(ba.endian, w, s, Written(ba, old(ba.position)))
  {
    hide ByteArray.Links, ByteArray.CursorAt, Extend, Ordered, Pow, TextBytes;
    TextOrdered(ba.endian, s, w);
    Stands(ba.Data(), ba.position, Ordered(ba.endian, |s| % Pow(256, w), w) + s);
    WriteParts(ba, host, s, w);
  }

  // ---------------------------------------------------------------- reads

  /** The bytes from the position on. */
  ghost function Rest(ba: ByteArray): seq<Byte>
    requires ba.Valid()
    reads ba, ba.nodes, Arrays(ba.nodes)
  {
    ba.Data()[ba.position..]
  }

  method ReadFixed(ba: ByteArray, host: Endian, w: nat) returns (r: Option<nat>)
    requires ba.Valid() && w > 0
    modifies ba`cur, ba`position
    ensures ba.Valid() && ba.Store() == old(ba.Store())
    ensures r.None? <==> w > ba.size - old(ba.position)
    ensures r.None? ==> ba.position == old(ba.position)
    ensures r.Some? ==> ba.position == old(ba.position) + w && r.value == OrderedValue(ba.endian, old(Rest(ba))[..w])
    ensures r.Some? ==> r.value == PlaceSum(ba.endian, old(Rest(ba))[..w], w)
  {
    hide ByteArray.Links, ByteArray.CursorAt, OrderedValue, Byteswap;
    var rr := ba.Read(w);
    if !rr.Bytes? { return None; }
    assert rr.bytes == old(Rest(ba))[..w];
    var v := OrderedValue(host, rr.bytes);
    if ba.endian != host { v := Byteswap(v, w); }
    ReadOrder(host, ba.endian, rr.bytes);
    return Some(v);
  }

  /** `readUint32/64`: a byte at a time; running out leaves the position at the end. */
  method ReadVarint(ba: ByteArray, host: Endian, bits: nat) returns (r: Option<nat>)
    requires ba.Valid()
    modifies ba`cur, ba`position
    ensures ba.Valid() && ba.Store() == old(ba.Store())
    ensures var d := DecodeVarint(old(Rest(ba)), 0, bits, 0);
            && (r.Some? <==> d.Some?)
            && (d.Some? ==> r == Some(d.value.0) && ba.position == old(ba.position) + d.value.1)
            && (d.None? ==> ba.position == ba.size)
  {
    hide ByteArray.Links, ByteArray.CursorAt, OrderedValue, Or, Pow;
    var result, i := 0, 0;
    ghost var k := 0;
    ghost var all := Rest(ba);
    while i < bits
      invariant ba.Valid() && ba.Store() == old(ba.Store()) && k <= |all| && ba.position == old(ba.position) + k
      invariant var d, d0 := DecodeVarint(all[k..], i, bits, result), DecodeVarint(all, 0, bits, 0);
                d0 == if d.Some? then Some((d.value.0, d.value.1 + k)) else None
      decreases bits - i
    {
      assert all[k..] == Rest(ba);
      var b := ReadFixed(ba, host, 1);
      if b.None? { return None; }
      assert all[k..][1..] == all[k + 1..];
      OneByte(ba.endian, all[k..][..1]);
      result := Or(result, b.value % 128 * Pow(2, i) % Pow(2, bits));
      k := k + 1;
      if b.value < 0x80 { return Some(result); }
      i := i + 7;
    }
    return Some(result);
  }

  lemma OneByte(e: Endian, bs: seq<Byte>)
    requires |bs| == 1
    ensures OrderedValue(e, bs) == bs[0]
  {
    assert bs[1..] == [] && Reverse(bs) == [bs[0]] == bs;
    assert LittleValue(bs) == bs[0] + 256 * LittleValue(bs[1..]);
  }

  /** `readStringF16/32/64`: a length, then that many bytes. */
  method ReadText(ba: ByteArray, host: Endian, w: nat) returns (r: ReadResult)
    requires ba.Valid() && w > 0
    modifies ba`cur, ba`position
    ensures ba.Valid() && ba.Store() == old(ba.Store())
    ensures w > ba.size - old(ba.position) ==> r == OutOfRange && ba.position == old(ba.position)
    ensures w <= ba.size - old(ba.position) ==>
              var p, len := old(ba.position) + w, OrderedValue(ba.endian, old(Rest(ba))[..w]);
              && (r.OutOfRange? <==> p + len > ba.size)
              && (r.NullCursor? <==> len == 0 && p == ba.capacity)
              && (!r.Bytes? ==> ba.position == p)
              && (r.Bytes? ==> ba.position == p + len && r.bytes == old(Rest(ba))[w..w + len])
  {
    hide OrderedValue, Ordered, ByteArray.Links, ByteArray.CursorAt;
    var len := ReadFixed(ba, host, w);
    if len.None? { return OutOfRange; }
    r := ba.Read(len.value);
  }

  // ---------------------------------------------------------------- one string

  /** The length field holds the length cut to its width. */
  lemma TextLengthField(e: Endian, s: seq<Byte>, w: nat)
    ensures |s| % Pow(256, w) <= |s|
    ensures OrderedValue(e, Ordered(e, |s| % Pow(256, w), w)) == |s| % Pow(256, w)
    ensures |s| % Pow(256, w) == |s| <==> |s| < Pow(256, w)
  {
    var m := Pow(256, w);
    ModLe(|s|, m);
    assert |s| % m < m;
    OrderedBack(e, |s| % m, w);
    if |s| < m { SmallMod(|s|, m); }
  }

  lemma OrderedBack(e: Endian, n: nat, w: nat)
    requires n < Pow(256, w)
    ensures OrderedValue(e, Ordered(e, n, w)) == n
  {
    ReverseTwice(LittleBytes(n, w));
    LittleRoundTrip(n, w);
  }

  /** A write that ends at `total` ends at the capacity exactly when it reaches the old capacity and
      the end of a block. */
  lemma TightAfter(total: nat, oldCapacity: nat, capacity: nat, blocks: nat, base: nat)
    requires base >= 1 && capacity == BlockStart(blocks, base) && total <= capacity && blocks >= 1
    requires oldCapacity <= capacity && (capacity > oldCapacity ==> capacity - base < total && oldCapacity < total)
    ensures total == capacity <==> total >= oldCapacity && total % base == 0
  {
    CursorIndex(blocks, 0, base);
    if total < capacity && capacity > oldCapacity {
      BlocksAdd(blocks - 1, 1, base);
      CursorIndex(blocks - 1, total - BlockStart(blocks - 1, base), base);
    }
  }

  /** Where a string starts after the write and the seek back. */
  lemma TextStands(data: seq<Byte>, p: nat, len: seq<Byte>, s: seq<Byte>)
    requires p <= |data|
    ensures var rest := Extend(data, p, len + s)[p..];
            && |rest| >= |len| + |s| && rest[..|len|] == len && rest[|len|..|len| + |s|] == s
  {
    var rest := Extend(data, p, len + s)[p..];
    Stands(data, p, len + s);
    assert rest[..|len| + |s|] == len + s;
    assert rest[..|len|] == (len + s)[..|len|] && rest[|len|..|len| + |s|] == (len + s)[|len|..];
  }

  /** Any string written at any position of any array, then read back from there. What comes back is
      the string cut to the length its field can hold, except that the read dereferences a null cursor
      exactly when the string is empty and its length field ends at the end of the last block. So the
      string itself comes back if and only if its length fits its field and it is not that exception. */
  method TextRoundTrip(ba: ByteArray, host: Endian, s: seq<Byte>, w: nat) returns (r: ReadResult)
    requires ba.Valid() && w > 0
    modifies ba, ba.nodes, Arrays(ba.nodes)
    ensures ba.Valid()
    ensures var crash := s == [] && old(ba.position) + w >= old(ba.capacity)
              && (old(ba.position) + w) % ba.baseSize == 0;
            && (r.NullCursor? <==> crash)
            && (!crash ==> |s| % Pow(256, w) <= |s| && r == Bytes(s[..|s| % Pow(256, w)]))
            && (r == Bytes(s) <==> |s| < Pow(256, w) && !crash)
  {
    hide ByteArray.Links, ByteArray.CursorAt, OrderedValue, Ordered, Pow, Extend, BlockStart, BlockOf, TextBytes;
    var start := ba.position;
    ghost var len := |s| % Pow(256, w);
    ghost var field := Ordered(ba.endian, len, w);
    TextLengthField(ba.endian, s, w);
    WriteText(ba, host, s, w);
    TextStands(old(ba.Data()), start, field, s);
    ba.NodeFacts(0);
    ghost var written := ba.Data();
    if s == [] { TightAfter(ba.position, old(ba.capacity), ba.capacity, |ba.nodes|, ba.baseSize); }
    var ok := ba.SetPosition(start);
    assert Rest(ba) == written[start..];
    r := ReadText(ba, host, w);
  }

  /** A string one longer than a 16-bit length field can hold comes back empty. */
  method LongTextLost(host: Endian) returns (r: ReadResult)
    ensures r == Bytes([])
  {
    hide ByteArray.Links, ByteArray.CursorAt, Pow;
    SixteenBits();
    var s: seq<Byte> := seq(65536, _ => 0);
    var ba := new ByteArray(4096);
    r := TextRoundTrip(ba, host, s, 2);
  }

  // ---------------------------------------------------------------- lists of values

  datatype Kind = FixedKind(width: nat, signed: bool) | VarintKind(bits: nat) | TextKind(width: nat)

  datatype Value = Number(n: int) | Text(s: seq<Byte>)

  datatype Item = Item(kind: Kind, value: Value)

  /** The kinds the class has functions for. */
  predicate Known(k: Kind) {
    match k
    case FixedKind(w, _) => w == 1 || w == 2 || w == 4 || w == 8
    case VarintKind(bits) => bits == 32 || bits == 64
    case TextKind(w) => w == 2 || w == 4 || w == 8
  }

  predicate Fits(x: Item) {
    match x.kind
    case FixedKind(w, signed) => x.value.Number? && InRange(x.value.n, signed, Pow(256, w))
    case VarintKind(bits) => x.value.Number? && 0 <= x.value.n < Pow(2, bits)
    case TextKind(w) => x.value.Text? && |x.value.s| < Pow(256, w)
  }

  predicate Legal(x: Item) {
    Known(x.kind) && Fits(x)
  }

  function Encode(e: Endian, x: Item): (r: seq<Byte>)
    requires Legal(x)
    ensures |r| >= 1
  {
    match x.kind
    case FixedKind(w, signed) => Ordered(e, ToUnsigned(x.value.n, Pow(256, w)), w)
    case VarintKind(bits) => EncodeVarint(x.value.n)
    case TextKind(w) => Ordered(e, |x.value.s|, w) + x.value.s
  }

  predicate AllLegal(xs: seq<Item>) {
    forall k :: 0 <= k < |xs| ==> Legal(xs[k])
  }

  function EncodeAll(e: Endian, xs: seq<Item>): seq<Byte>
    requires AllLegal(xs)
  {
    if xs == [] then [] else Encode(e, xs[0]) + EncodeAll(e, xs[1..])
  }

  lemma {:induction false} EncodeSplit(e: Endian, xs: seq<Item>, i: nat)
    requires AllLegal(xs) && i < |xs|
    ensures EncodeAll(e, xs) == EncodeAll(e, xs[..i]) + Encode(e, xs[i]) + EncodeAll(e, xs[i + 1..])
  {
    hide Encode, Legal;
    if i == 0 {
      assert xs[..0] == [];
    } else {
      var ys := xs[1..];
      EncodeSplit(e, ys, i - 1);
      assert xs[..i][1..] == ys[..i - 1] && ys[i..] == xs[i + 1..] && ys[i - 1] == xs[i];
      assert EncodeAll(e, xs[..i]) == Encode(e, xs[0]) + EncodeAll(e, ys[..i - 1]);
    }
  }

  lemma EncodeSnoc(e: Endian, xs: seq<Item>, i: nat)
    requires AllLegal(xs) && i < |xs|
    ensures EncodeAll(e, xs[..i + 1]) == EncodeAll(e, xs[..i]) + Encode(e, xs[i])
  {
    EncodeSplit(e, xs[..i + 1], i);
    assert xs[..i + 1][..i] == xs[..i] && xs[..i + 1][i + 1..] == [];
  }

  lemma EncodeNone(e: Endian, xs: seq<Item>)
    requires AllLegal(xs)
    ensures EncodeAll(e, xs[..0]) == []
  {
  }

  method WriteItem(ba: ByteArray, host: Endian, x: Item)
    requires ba.Valid() && Legal(x)
    modifies ba, ba.nodes, Arrays(ba.nodes)
    ensures ba.Wrote(Encode(ba.endian, x))
  {
    match x.kind
    case FixedKind(w, signed) => WriteFixed(ba, host, ToUnsigned(x.value.n, Pow(256, w)), w);
    case VarintKind(bits) => WriteVarint(ba, x.value.n, bits);
    case TextKind(w) =>
      SmallMod(|x.value.s|, Pow(256, w));
      WriteText(ba, host, x.value.s, w);
  }

  datatype Outcome = Got(item: Item) | Thrown | Crash

  /** An empty string whose bytes would start past the last block. */
  predicate EmptyText(x: Item) {
    x.kind.TextKind? && x.value == Text([])
  }

  /** What reading the encoding of x gives. */
  ghost function Expected(x: Item, end: nat, capacity: nat): Outcome {
    if EmptyText(x) && end == capacity then Crash else Got(x)
  }

  method ReadFixedItem(
        ba: ByteArray, host: Endian, w: nat, signed: bool, ghost x: Item, ghost tail: seq<Byte>) returns (out: Outcome)
    requires ba.Valid() && Legal(x) && x.kind == FixedKind(w, signed) && Rest(ba) == Encode(ba.endian, x) + tail
    modifies ba`cur, ba`position
    ensures ba.Valid() && ba.Store() == old(ba.Store())
    ensures out == Got(x) && ba.position == old(ba.position) + |Encode(ba.endian, x)|
  {
    FixedBack(ba.endian, x, tail);
    hide ByteArray.Links, ByteArray.CursorAt, Encode, Pow, OrderedValue, Fits, ToSigned;
    var r := ReadFixed(ba, host, w);
    if r.None? { return Thrown; }
    return Got(Item(FixedKind(w, signed), Number(if signed then ToSigned(r.value, Pow(256, w)) else r.value)));
  }

  method ReadVarintItem(
        ba: ByteArray, host: Endian, bits: nat, ghost x: Item, ghost tail: seq<Byte>) returns (out: Outcome)
    requires ba.Valid() && Legal(x) && x.kind == VarintKind(bits) && Rest(ba) == Encode(ba.endian, x) + tail
    modifies ba`cur, ba`position
    ensures ba.Valid() && ba.Store() == old(ba.Store())
    ensures out == Got(x) && ba.position == old(ba.position) + |Encode(ba.endian, x)|
  {
    hide ByteArray.Links, ByteArray.CursorAt, Pow, DecodeVarint, EncodeVarint;
    VarintRoundTrip(x.value.n, tail, bits);
    var r := ReadVarint(ba, host, bits);
    if r.None? { return Thrown; }
    return Got(Item(VarintKind(bits), Number(r.value)));
  }

  method ReadTextItem(ba: ByteArray, host: Endian, w: nat, ghost x: Item, ghost tail: seq<Byte>) returns (out: Outcome)
    requires ba.Valid() && Legal(x) && x.kind == TextKind(w) && Rest(ba) == Encode(ba.endian, x) + tail
    modifies ba`cur, ba`position
    ensures ba.Valid() && ba.Store() == old(ba.Store())
    ensures out == Expected(x, old(ba.position) + |Encode(ba.endian, x)|, ba.capacity)
    ensures ba.position == old(ba.position) + |Encode(ba.endian, x)|
  {
    TextBack(ba.endian, x, tail);
    hide ByteArray.Links, ByteArray.CursorAt, Encode, Pow, OrderedValue;
    var r := ReadText(ba, host, w);
    match r
    case Bytes(bytes) => return Got(Item(TextKind(w), Text(bytes)));
    case OutOfRange => return Thrown;
    case NullCursor => return Crash;
  }

  /** Reads one value of a kind when the next bytes are the encoding of one. */
  method ReadItem(ba: ByteArray, host: Endian, kind: Kind, ghost x: Item, ghost tail: seq<Byte>) returns (out: Outcome)
    requires ba.Valid() && Legal(x) && x.kind == kind && Rest(ba) == Encode(ba.endian, x) + tail
    modifies ba`cur, ba`position
    ensures ba.Valid() && ba.Store() == old(ba.Store())
    ensures out == Expected(x, old(ba.position) + |Encode(ba.endian, x)|, ba.capacity)
    ensures ba.position == old(ba.position) + |Encode(ba.endian, x)|
  {
    hide ByteArray.Links, ByteArray.CursorAt, Encode, Legal;
    match kind
    case FixedKind(w, signed) => out := ReadFixedItem(ba, host, w, signed, x, tail);
    case VarintKind(bits) => out := ReadVarintItem(ba, host, bits, x, tail);
    case TextKind(w) => out := ReadTextItem(ba, host, w, x, tail);
  }

  /** The first bytes of a fixed-width encoding hold the number. */
  lemma FixedBack(e: Endian, x: Item, tail: seq<Byte>)
    requires Legal(x) && x.kind.FixedKind?
    ensures var w, m := x.kind.width, Pow(256, x.kind.width);
            var n := OrderedValue(e, (Encode(e, x) + tail)[..w]);
            |Encode(e, x)| == w && x.value == Number(if x.kind.signed then ToSigned(n, m) else n)
  {
    var w := x.kind.width;
    var u := ToUnsigned(x.value.n, Pow(256, w));
    assert (Encode(e, x) + tail)[..w] == Ordered(e, u, w);
    OrderedBack(e, u, w);
  }

  lemma TextBack(e: Endian, x: Item, tail: seq<Byte>)
    requires Legal(x) && x.kind.TextKind?
    ensures var w, all, s := x.kind.width, Encode(e, x) + tail, x.value.s;
            && |Encode(e, x)| == w + |s| && OrderedValue(e, all[..w]) == |s| && all[w..w + |s|] == s
  {
    var w, s := x.kind.width, x.value.s;
    assert (Encode(e, x) + tail)[..w] == Ordered(e, |s|, w);
    OrderedBack(e, |s|, w);
  }

  method WriteAll(ba: ByteArray, host: Endian, xs: seq<Item>)
    requires ba.Valid() && AllLegal(xs) && ba.position == ba.size == 0 && ba.capacity == ba.baseSize
    modifies ba, ba.nodes, Arrays(ba.nodes)
    ensures ba.Valid() && ba.endian == old(ba.endian)
    ensures ba.position == ba.size && ba.Data() == EncodeAll(ba.endian, xs)
    ensures ba.capacity == ba.baseSize || ba.capacity - ba.baseSize < ba.size
  {
    hide ByteArray.Links, ByteArray.CursorAt, ByteArray.Data, BlockOf, Encode, Legal, EncodeAll, Extend;
    EncodeNone(ba.endian, xs);
    var i := 0;
    while i < |xs|
      invariant 0 <= i <= |xs| && ba.Valid() && ba.endian == old(ba.endian)
      invariant |old(ba.nodes)| <= |ba.nodes| && ba.nodes[..|old(ba.nodes)|] == old(ba.nodes)
      invariant forall k :: |old(ba.nodes)| <= k < |ba.nodes| ==> fresh(ba.nodes[k]) && fresh(ba.nodes[k].data)
      invariant ba.position == ba.size && ba.Data() == EncodeAll(ba.endian, xs[..i])
      invariant ba.capacity == ba.baseSize || ba.capacity - ba.baseSize < ba.size
    {
      EncodeSnoc(ba.endian, xs, i);
      ExtendEnd(ba.Data(), Encode(ba.endian, xs[i]));
      WriteItem(ba, host, xs[i]);
      i := i + 1;
    }
    assert xs[..i] == xs;
  }

  /** Reads as many values as there are kinds, stopping at the first that does not come. */
  method ReadAll(
        ba: ByteArray, host: Endian, ghost xs: seq<Item>, kinds: seq<Kind>) returns (back: seq<Item>, last: Outcome)
    requires ba.Valid() && AllLegal(xs) && |kinds| == |xs| && (forall k :: 0 <= k < |xs| ==> kinds[k] == xs[k].kind)
    requires ba.position == 0 && ba.Data() == EncodeAll(ba.endian, xs)
    modifies ba`cur, ba`position
    ensures ba.Valid() && ba.Store() == old(ba.Store())
    ensures ba.position == ba.size
    ensures if |xs| > 0 && EmptyText(xs[|xs| - 1]) && ba.size == ba.capacity
            then last == Crash && back == xs[..|xs| - 1]
            else !last.Crash? && !last.Thrown? && back == xs
  {
    hide ByteArray.Links, ByteArray.CursorAt, Encode, Legal, EmptyText;
    back, last := [], Got(Item(VarintKind(32), Number(0)));
    ghost var e, all := ba.endian, ba.Data();
    var i := 0;
    while i < |kinds|
      invariant 0 <= i <= |kinds| && ba.Valid() && ba.Store() == old(ba.Store())
      invariant back == xs[..i] && last.Got? && ba.position == |EncodeAll(e, xs[..i])|
      invariant i == |kinds| ==> i == 0 || !(EmptyText(xs[i - 1]) && ba.size == ba.capacity)
    {
      EncodeSplit(e, xs, i);
      EncodeSnoc(e, xs, i);
      ghost var tail := EncodeAll(e, xs[i + 1..]);
      assert Rest(ba) == Encode(e, xs[i]) + tail;
      assert AtEnd(e, xs, i);
      last := ReadItem(ba, host, kinds[i], xs[i], tail);
      if !last.Got? {
        return;
      }
      back := back + [last.item];
      i := i + 1;
    }
    assert xs[..i] == xs;
  }

  /** Where the i-th value ends: at the end of all bytes exactly when it is the last. */
  predicate AtEnd(e: Endian, xs: seq<Item>, i: nat)
    requires AllLegal(xs) && i < |xs|
  {
    |EncodeAll(e, xs[i + 1..])| == 0 <==> i + 1 == |xs|
  }

  lemma LastIsTight(total: nat, capacity: nat, blocks: nat, base: nat)
    requires base >= 1 && capacity == BlockStart(blocks, base) && total <= capacity && blocks >= 1
    requires capacity == base || capacity - base < total
    ensures total == capacity <==> total > 0 && total % base == 0
  {
    CursorIndex(blocks, 0, base);
    if total < capacity && total > 0 {
      BlocksAdd(blocks - 1, 1, base);
      CursorIndex(blocks - 1, total - BlockStart(blocks - 1, base), base);
    }
  }

  /** Any list of values written to an empty array and read back after a seek to 0 comes back whole
      and leaves nothing unread, for every block size, host and stored order, with one exception:
      the read crashes at the very end when the last value is an empty string and the bytes fill
      the last block exactly. */
  method RoundTrip(
        baseSize: nat, host: Endian, e: Endian, xs: seq<Item>, kinds: seq<Kind>) returns (back: seq<Item>,
        last: Outcome, unread: nat)
    requires baseSize >= 1 && AllLegal(xs) && |kinds| == |xs| && (forall k :: 0 <= k < |xs| ==> kinds[k] == xs[k].kind)
    ensures last.Crash? <==> |xs| > 0 && EmptyText(xs[|xs| - 1]) && |EncodeAll(e, xs)| % baseSize == 0
    ensures !last.Crash? ==> !last.Thrown? && back == xs
    ensures unread == 0
  {
    hide ByteArray.Links, ByteArray.CursorAt, Encode, Legal, EmptyText, BlockStart;
    assert |xs| > 0 ==> |EncodeAll(e, xs)| > 0;
    var ba := new ByteArray(baseSize);
    ba.SetEndian(e);
    WriteAll(ba, host, xs);
    ba.NodeFacts(0);
    LastIsTight(ba.size, ba.capacity, |ba.nodes|, baseSize);
    var ok := ba.SetPosition(0);
    back, last := ReadAll(ba, host, xs, kinds);
    unread := ba.size - ba.position;
  }

  /** An empty string with a 16-bit length field, alone in an array of 2-byte blocks, crashes the read. */
  method EmptyTextCrashes(host: Endian, e: Endian) returns (last: Outcome)
    ensures last == Crash
  {
    var x := Item(TextKind(2), Text([]));
    assert Legal(x) by { SixteenBits(); }
    assert EncodeAll(e, [x]) == Encode(e, x) + EncodeAll(e, [x][1..]) && [x][1..] == [];
    assert |EncodeAll(e, [x])| == 2;
    var back, unread;
    back, last, unread := RoundTrip(2, host, e, [x], [x.kind]);
  }
}
