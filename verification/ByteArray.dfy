/** `ByteArray`: a growable chain of equal blocks with a cursor, refining a flat byte sequence. */
module ByteArrays {
  import opened Flat

  /** What a read gives: the bytes, `std::out_of_range`, or (for an empty read past the last
      block) a dereference of the null cursor. */
  datatype ReadResult = Bytes(bytes: seq<Byte>) | OutOfRange | NullCursor

  class Node {
    const data: array<Byte>
    const size: nat
    var next: Node?

    constructor (size: nat)
      ensures data.Length == size == this.size && next == null && fresh(data)
    {
      data := new Byte[size];
      this.size := size;
      next := null;
    }
  }

  /** One element of an `iovec` array. */
  datatype Iovec = Iovec(data: array<Byte>, off: nat, len: nat)

  function Min(a: nat, b: nat): nat {
    if a <= b then a else b
  }

  /** Block i, or null past the last. */
  function NodeAt(nodes: seq<Node>, i: nat): Node? {
    if i < |nodes| then nodes[i] else null
  }

  ghost function Arrays(nodes: seq<Node>): set<array<Byte>> {
    set n | n in nodes :: n.data
  }

  method Fill(data: array<Byte>, o: nat, chunk: seq<Byte>)
    requires o + |chunk| <= data.Length
    modifies data
    ensures data[..] == Overwrite(old(data[..]), o, chunk)
  {
    forall k | 0 <= k < |chunk| { data[o + k] := chunk[k]; }
  }

  class ByteArray {
    const baseSize: nat
    var capacity: nat
    var position: nat
    var size: nat
    var endian: Endian
    var root: Node
    var cur: Node?
    ghost var nodes: seq<Node>
    ghost var blocks: seq<seq<Byte>>

    /** Every byte of every block, written or not. */
    ghost function Store(): seq<Byte>
      reads this`blocks
    {
      Join(blocks)
    }

    /** The nodes are linked in order. */
    ghost predicate Chained()
      reads this`nodes, nodes
    {
      forall i :: 0 <= i < |nodes| ==> nodes[i].next == NodeAt(nodes, i + 1)
    }

    /** The nodes hold `blocks`, in distinct arrays. */
    ghost predicate Filled()
      reads this`nodes, this`blocks, Arrays(nodes)
    {
      && |nodes| == |blocks|
      && (forall i :: 0 <= i < |nodes| ==> nodes[i].size == baseSize && nodes[i].data[..] == blocks[i])
      && (forall i, j :: 0 <= i < j < |nodes| ==> nodes[i] != nodes[j] && nodes[i].data != nodes[j].data)
    }

    /** The blocks hold `blocks`, are all of the base size, are linked in order and are distinct. */
    ghost predicate Links()
      reads this`capacity, this`root, this`nodes, this`blocks, nodes, Arrays(nodes)
    {
      && 1 <= baseSize && 1 <= |nodes| && nodes[0] == root
      && capacity == BlockStart(|nodes|, baseSize) == |Store()|
      && Uniform(blocks, baseSize)
      && Filled() && Chained()
    }

    /** The cursor is at block number `at`, or null past the last block. */
    ghost predicate CursorAt(at: nat)
      reads this
    {
      && at <= |nodes| && BlockStart(at, baseSize) <= position < BlockStart(at, baseSize) + baseSize
      && cur == NodeAt(nodes, at)
    }

    ghost predicate Valid()
      reads this, nodes, Arrays(nodes)
    {
      Links() && position <= size <= capacity && CursorAt(BlockOf(position, baseSize))
    }

    /** The bytes up to the logical size. */
    ghost function Data(): (r: seq<Byte>)
      requires Valid()
      reads this, nodes, Arrays(nodes)
      ensures |r| == size
    {
      Store()[..size]
    }

    /** Moving the position, the size or the cursor leaves the blocks linked. */
    twostate lemma StillLinked()
      requires old(Links())
      requires capacity == old(capacity) && root == old(root) && nodes == old(nodes) && blocks == old(blocks)
      requires forall i :: 0 <= i < |nodes| ==>
                nodes[i].next == old(nodes[i].next) && nodes[i].data[..] == old(nodes[i].data[..])
      ensures Links()
    {
    }

    /** The effect of a write: the bytes go in at the position, the position moves past them, and
        growth adds no block more than needed. */
    twostate predicate Wrote(bytes: seq<Byte>)
      requires old(Valid())
      reads this, nodes, Arrays(nodes)
    {
      && Valid() && |old(nodes)| <= |nodes| && nodes[..|old(nodes)|] == old(nodes)
      && (forall k :: |old(nodes)| <= k < |nodes| ==> fresh(nodes[k]) && fresh(nodes[k].data))
      && endian == old(endian)
      && position == old(position) + |bytes|
      && Data() == Extend(old(Data()), old(position), bytes)
      && capacity >= old(capacity)
      && (capacity > old(capacity) ==> old(capacity) < position && capacity - baseSize < position)
    }

    constructor (baseSize: nat)
      requires baseSize >= 1
      ensures Valid() && this.baseSize == baseSize
      ensures (forall k :: 0 <= k < |nodes| ==> fresh(nodes[k]) && fresh(nodes[k].data))
      ensures position == size == 0 && capacity == baseSize && endian == Big
    {
      this.baseSize := baseSize;
      capacity, position, size, endian := baseSize, 0, 0, Big;
      var r := new Node(baseSize);
      root, cur, nodes, blocks := r, r, [r], [r.data[..]];
      JoinLength([r.data[..]], baseSize);
    }

    /** `setIsLittleEndian`. */
    method SetEndian(e: Endian)
      requires Valid()
      modifies this`endian
      ensures Valid() && endian == e && Data() == old(Data())
    {
      endian := e;
    }

    // -------------------------------------------------------------- growth

    method LastNode() returns (tail: Node)
      requires Links()
      ensures Links() && tail == nodes[|nodes| - 1]
    {
      hide BlockStart, Join, Uniform;
      tail := root;
      ghost var t := 0;
      while tail.next != null
        invariant 0 <= t < |nodes| && tail == nodes[t]
        decreases |nodes| - t
      {
        tail := tail.next;
        t := t + 1;
      }
    }

    twostate lemma ChainGrows(node: Node)
      requires old(Chained()) && old(Filled()) && |old(nodes)| >= 1 && nodes == old(nodes) + [node] && node.next == null
      requires old(nodes)[|old(nodes)| - 1].next == node
      requires forall i :: 0 <= i < |old(nodes)| - 1 ==> old(nodes)[i].next == old(nodes[i].next)
      ensures Chained()
    {
      var k := |old(nodes)|;
      forall i | 0 <= i < |nodes| ensures nodes[i].next == NodeAt(nodes, i + 1) {
        if i < k { assert nodes[i] == old(nodes)[i]; }
      }
    }

    twostate lemma FillGrows(node: Node)
      requires old(Filled()) && nodes == old(nodes) + [node] && blocks == old(blocks) + [node.data[..]]
      requires node.size == baseSize
      requires forall i :: 0 <= i < |old(nodes)| ==> old(nodes)[i] != node && old(nodes)[i].data != node.data
      requires forall i :: 0 <= i < |old(nodes)| ==> old(nodes)[i].data[..] == old(nodes[i].data[..])
      ensures Filled()
    {
      var k := |old(nodes)|;
      forall i | 0 <= i < |nodes| ensures nodes[i].size == baseSize && nodes[i].data[..] == blocks[i] {
        if i < k { assert nodes[i] == old(nodes)[i] && blocks[i] == old(blocks)[i]; }
      }
    }

    /** Hangs a new node on the last one. */
    method Attach(tail: Node, node: Node)
      requires Links() && tail == nodes[|nodes| - 1]
      requires node.size == node.data.Length == baseSize && node.next == null
      requires forall i :: 0 <= i < |nodes| ==> nodes[i] != node && nodes[i].data != node.data
      modifies this`capacity, this`nodes, this`blocks, tail`next
      ensures Links() && nodes == old(nodes) + [node] && blocks == old(blocks) + [node.data[..]]
      ensures capacity == old(capacity) + baseSize
    {
      hide BlockStart, Join, Uniform, Chained, Filled;
      LastIsLast();
      BlocksAdd(|nodes|, 1, baseSize);
      UniformSnoc(blocks, node.data[..], baseSize);
      JoinLength(blocks + [node.data[..]], baseSize);
      tail.next := node;
      capacity := capacity + baseSize;
      nodes, blocks := nodes + [node], blocks + [node.data[..]];
      ChainGrows(node);
      FillGrows(node);
    }

    lemma LastIsLast()
      requires Links()
      ensures |nodes| == |blocks| && forall i :: 0 <= i < |nodes| - 1 ==> nodes[i] != nodes[|nodes| - 1]
    {
    }

    method AppendNode(tail: Node) returns (node: Node)
      requires Links() && tail == nodes[|nodes| - 1]
      modifies this`capacity, this`nodes, this`blocks, tail`next
      ensures Links() && fresh(node) && fresh(node.data) && nodes == old(nodes) + [node]
      ensures capacity == old(capacity) + baseSize
      ensures blocks == old(blocks) + [node.data[..]]
    {
      hide Links;
      NodeFacts(0);
      node := new Node(baseSize);
      StillLinked();
      Attach(tail, node);
    }

    /** Adds blocks at the end; returns the first. */
    method Grow(count: nat) returns (first: Node?)
      requires Links()
      modifies this`capacity, this`nodes, this`blocks, nodes
      ensures Links() && |nodes| == |old(nodes)| + count && nodes[..|old(nodes)|] == old(nodes)
      ensures blocks[..|old(nodes)|] == old(blocks)
      ensures forall k :: |old(nodes)| <= k < |nodes| ==> fresh(nodes[k]) && fresh(nodes[k].data)
      ensures first == if count == 0 then null else nodes[|old(nodes)|]
    {
      hide Links;
      NodeFacts(0);
      var tmp := LastNode();
      first := null;
      var i := 0;
      while i < count
        invariant 0 <= i <= count && Links() && |nodes| == |blocks| == |old(nodes)| + i
        invariant nodes[..|old(nodes)|] == old(nodes) && blocks[..|old(nodes)|] == old(blocks)
        invariant tmp == nodes[|nodes| - 1] && (i == 0 || fresh(tmp))
        invariant forall k :: |old(nodes)| <= k < |nodes| ==> fresh(nodes[k]) && fresh(nodes[k].data)
        invariant first == if i == 0 then null else nodes[|old(nodes)|]
      {
        tmp := AppendNode(tmp);
        if first == null { first := tmp; }
        i := i + 1;
      }
    }

    /** Adds the fewest blocks that make room for n bytes from the position on. */
    method AddCapacity(n: nat)
      requires Valid()
      modifies this`capacity, this`cur, this`nodes, this`blocks, nodes
      ensures Valid() && |old(nodes)| <= |nodes| && nodes[..|old(nodes)|] == old(nodes)
      ensures forall k :: |old(nodes)| <= k < |nodes| ==> fresh(nodes[k]) && fresh(nodes[k].data)
      ensures capacity >= old(capacity) && capacity >= position + n
      ensures capacity > old(capacity) ==> old(capacity) < position + n && capacity - baseSize < position + n
      ensures Store()[..old(capacity)] == old(Store())
    {
      hide Links, BlockStart, BlockOf, BlocksFor, Join, Uniform;
      NodeFacts(0);
      if n == 0 || capacity - position >= n { return; }
      var oldCap := capacity - position;
      var need := n - oldCap;
      var count := BlocksFor(need, baseSize);
      CeilDiv(need, baseSize);
      BlocksAdd(|nodes|, count, baseSize);
      EndIndex(|nodes|, position, baseSize);
      var first := Grow(count);
      NodeFacts(0);
      SameSizes();
      JoinPrefix(blocks, |old(nodes)|, baseSize);
      label Grown:
      if oldCap == 0 { cur := first; }
      StillLinked@Grown();
    }

    // -------------------------------------------------------------- the cursor

    /** Below the capacity the cursor points at the block the position is in. */
    method Locate() returns (npos: nat, ghost at: nat)
      requires Valid() && position < capacity
      ensures Links() && Store() == old(Store())
      ensures at == BlockOf(position, baseSize) < |nodes| && cur == nodes[at] && cur.size == baseSize
      ensures npos < baseSize && position == BlockStart(at, baseSize) + npos
    {
      EndIndex(|nodes|, position, baseSize);
      PositionIndex(position, baseSize);
      npos, at := position % baseSize, BlockOf(position, baseSize);
    }

    lemma NodeFacts(at: nat)
      requires Links() && (at < |nodes| || at == 0)
      ensures 1 <= baseSize && 1 <= |nodes| == |blocks| && nodes[0] == root
      ensures capacity == BlockStart(|nodes|, baseSize) == |Store()|
      ensures at < |nodes| && nodes[at].size == baseSize && nodes[at].next == NodeAt(nodes, at + 1)
    {
    }

    lemma SameSizes()
      requires Links()
      ensures Uniform(blocks, baseSize)
    {
    }

    /** Where the cursor goes after m of the n remaining bytes, from offset o of block `at`. */
    lemma CursorMoves(at: nat, o: nat, m: nat, n: nat)
      requires Links() && at < |nodes| && o < baseSize && 0 < m <= n && o + m <= baseSize
      requires m == n || o + m == baseSize
      requires BlockStart(at, baseSize) + o + n <= capacity
      ensures m < n ==> at + 1 < |nodes|
      ensures BlockStart(at + 1, baseSize) == BlockStart(at, baseSize) + baseSize
      ensures BlockOf(BlockStart(at, baseSize) + o + m, baseSize) == if o + m == baseSize then at + 1 else at
    {
      hide Links, BlockStart, BlockOf;
      NodeFacts(at);
      BlocksAdd(at, 1, baseSize);
      Below(|nodes|, at + 1, baseSize);
      if o + m == baseSize { CursorIndex(at + 1, 0, baseSize); } else { CursorIndex(at, o + m, baseSize); }
    }

    // -------------------------------------------------------------- writing

    /** `memcpy` into the current block. */
    method CopyIn(ghost at: nat, o: nat, chunk: seq<Byte>)
      requires Links() && at < |nodes| && cur == nodes[at] && o + |chunk| <= baseSize
      modifies this`blocks, Arrays(nodes)
      ensures Links()
      ensures BlockStart(at, baseSize) + o + |chunk| <= capacity
      ensures Store() == Overwrite(old(Store()), BlockStart(at, baseSize) + o, chunk)
    {
      FillBlock(at, cur.data, o, chunk);
    }

    /** One `memcpy` of `write`: the bytes, the position, and the next block when this one is full. */
    method WriteChunk(ghost at: nat, npos: nat, chunk: seq<Byte>)
      requires Links() && at < |nodes| && cur == nodes[at] && npos + |chunk| <= baseSize
      requires position == BlockStart(at, baseSize) + npos
      modifies this`blocks, this`position, this`cur, Arrays(nodes)
      ensures Links()
      ensures position == old(position) + |chunk| <= capacity
      ensures cur == NodeAt(nodes, if npos + |chunk| == baseSize then at + 1 else at)
      ensures Store() == Overwrite(old(Store()), old(position), chunk)
    {
      hide Links, BlockStart, Overwrite;
      CopyIn(at, npos, chunk);
      NodeFacts(at);
      label Copied:
      position := position + |chunk|;
      if cur.size == npos + |chunk| { cur := cur.next; }
      StillLinked@Copied();
    }

    /** The copying loop of `write`. */
    method WriteBlocks(buf: seq<Byte>)
      requires Valid() && |buf| > 0 && position + |buf| <= capacity
      modifies this`cur, this`position, this`blocks, Arrays(nodes)
      ensures Links() && position == old(position) + |buf| && CursorAt(BlockOf(position, baseSize))
      ensures Store() == Overwrite(old(Store()), old(position), buf)
    {
      hide Links, BlockStart, Overwrite, BlockOf;
      ghost var p, flat := position, Store();
      var n := |buf|;
      ghost var at;
      var npos;
      npos, at := Locate();
      var ncap := baseSize - npos;
      var bpos := 0;
      assert buf[..bpos] == [];
      OverwriteNothing(flat, p);
      while n > 0
        invariant Links() && 0 <= bpos && 0 <= n && bpos + n == |buf| && position == p + bpos
        invariant Store() == Overwrite(flat, p, buf[..bpos])
        invariant n > 0 ==>
                  && 0 <= at < |nodes| && cur == nodes[at] && 0 <= npos < baseSize
                  && position == BlockStart(at, baseSize) + npos && ncap == baseSize - npos
        invariant n == 0 ==> CursorAt(BlockOf(position, baseSize))
      {
        var m := if ncap >= n then n else ncap;
        CursorMoves(at, npos, m, n);
        OverwriteTwice(flat, p, buf[..bpos], buf[bpos..bpos + m]);
        assert buf[..bpos] + buf[bpos..bpos + m] == buf[..bpos + m];
        WriteChunk(at, npos, buf[bpos..bpos + m]);
        bpos := bpos + m;
        n := n - m;
        at := if npos + m == baseSize then at + 1 else at;
        npos := 0;
        ncap := baseSize;
      }
      assert buf[..bpos] == buf;
    }

    method WriteSome(buf: seq<Byte>)
      requires Valid() && |buf| > 0
      modifies this`capacity, this`cur, this`nodes, this`blocks, this`position, this`size, nodes, Arrays(nodes)
      ensures Valid() && |old(nodes)| <= |nodes| && nodes[..|old(nodes)|] == old(nodes)
      ensures forall k :: |old(nodes)| <= k < |nodes| ==> fresh(nodes[k]) && fresh(nodes[k].data)
      ensures position == old(position) + |buf|
      ensures Data() == Extend(old(Data()), old(position), buf)
      ensures capacity >= old(capacity)
      ensures (capacity > old(capacity) ==> old(capacity) < position && capacity - baseSize < position)
    {
      hide Links, BlockStart, BlockOf, Join, Extend, Overwrite;
      NodeFacts(0);
      AddCapacity(|buf|);
      NodeFacts(0);
      ghost var flat := Store();
      WriteBlocks(buf);
      label Written:
      if position > size { size := position; }
      StillLinked@Written();
      NodeFacts(0);
      OverwritePrefix(flat, old(position), buf, old(size));
      assert flat[..old(size)] == flat[..old(capacity)][..old(size)];
    }

    /** Overwrites from the position on, growing as needed, and moves the position past the bytes. */
    method Write(buf: seq<Byte>)
      requires Valid()
      modifies this`capacity, this`cur, this`nodes, this`blocks, this`position, this`size, nodes, Arrays(nodes)
      ensures Wrote(buf)
    {
      if |buf| == 0 {
        ExtendNothing(Data(), position);
        return;
      }
      WriteSome(buf);
    }

    // -------------------------------------------------------------- reading

    /** One `memcpy` of the read loops. */
    method CopyOut(ghost at: nat, from: Node, npos: nat, m: nat) returns (chunk: seq<Byte>, next: Node?)
      requires Links() && at < |nodes| && from == nodes[at] && npos + m <= baseSize
      ensures Links() && Store() == old(Store())
      ensures BlockStart(at, baseSize) + npos + m <= capacity
      ensures chunk == Part(Store(), BlockStart(at, baseSize) + npos, m)
      ensures next == NodeAt(nodes, if npos + m == baseSize then at + 1 else at)
    {
      JoinRange(blocks, baseSize, at, npos, m);
      JoinLength(blocks, baseSize);
      assert from.data[..] == blocks[at];
      chunk := from.data[npos..npos + m];
      next := if from.size == npos + m then from.next else from;
    }

    /** One round of the read loops: as much of `left` as the block holds. */
    method ReadChunk(
          ghost at: nat, node: Node, off: nat, left: nat) returns (chunk: seq<Byte>, next: Node?, ghost at': nat)
      requires Links() && at < |nodes| && node == nodes[at] && off < baseSize && left > 0
      requires BlockStart(at, baseSize) + off + left <= capacity
      ensures Links() && Store() == old(Store())
      ensures 0 < |chunk| <= left && chunk == Part(Store(), BlockStart(at, baseSize) + off, |chunk|)
      ensures |chunk| < left ==>
                && at' < |nodes| && next == nodes[at']
                && BlockStart(at, baseSize) + off + |chunk| == BlockStart(at', baseSize)
      ensures |chunk| == left ==> next == NodeAt(nodes, BlockOf(BlockStart(at, baseSize) + off + left, baseSize))
    {
      hide Links, BlockStart, BlockOf, Part;
      var ncap := baseSize - off;
      var m := if ncap >= left then left else ncap;
      CursorMoves(at, off, m, left);
      chunk, next := CopyOut(at, node, off, m);
      at' := at + 1;
    }

    /** The loop shared by both reads: from offset npos of block `from`, n bytes. */
    method ReadBlocks(ghost at: nat, from: Node, npos: nat, n: nat) returns (bytes: seq<Byte>, next: Node?)
      requires Links() && at < |nodes| && from == nodes[at] && npos < baseSize && n > 0
      requires BlockStart(at, baseSize) + npos + n <= capacity
      ensures Links() && Store() == old(Store())
      ensures bytes == Part(Store(), BlockStart(at, baseSize) + npos, n)
      ensures next == NodeAt(nodes, BlockOf(BlockStart(at, baseSize) + npos + n, baseSize))
    {
      hide Links, BlockStart, BlockOf, Part, Join;
      ghost var p, flat := BlockStart(at, baseSize) + npos, Store();
      NodeFacts(at);
      PartMore(flat, p, 0, 0);
      ghost var here := at;
      var off := npos;
      bytes, next := [], from;
      while |bytes| < n
        invariant Links() && flat == Store() && |bytes| <= n && bytes == Part(flat, p, |bytes|)
        invariant |bytes| < n ==>
                  && 0 <= here < |nodes| && next == nodes[here] && 0 <= off < baseSize
                  && p + |bytes| == BlockStart(here, baseSize) + off
        invariant |bytes| == n ==> next == NodeAt(nodes, BlockOf(p + n, baseSize))
      {
        var chunk;
        chunk, next, here := ReadChunk(here, next, off, n - |bytes|);
        PartMore(flat, p, |bytes|, |chunk|);
        bytes := bytes + chunk;
        off := 0;
      }
    }

    method ReadSome(n: nat) returns (bytes: seq<Byte>)
      requires Valid() && 0 < n <= size - position
      modifies this`cur, this`position
      ensures Links() && Store() == old(Store())
      ensures position == old(position) + n && CursorAt(BlockOf(position, baseSize))
      ensures bytes == Part(Store(), old(position), n)
    {
      hide Links, BlockStart, BlockOf, Join, Part;
      NodeFacts(0);
      PositionRange(position + n, baseSize);
      EndIndex(|nodes|, position + n, baseSize);
      var npos;
      ghost var at;
      npos, at := Locate();
      bytes, cur := ReadBlocks(at, cur, npos, n);
      position := position + n;
      StillLinked();
    }

    /** The next n bytes, or the reason there are none; only a successful read moves the position. */
    method Read(n: nat) returns (r: ReadResult)
      requires Valid()
      modifies this`cur, this`position
      ensures Valid() && Store() == old(Store())
      ensures r.OutOfRange? <==> n > size - old(position)
      ensures r.NullCursor? <==> n == 0 && old(position) == capacity
      ensures !r.Bytes? ==> position == old(position)
      ensures r.Bytes? ==> position == old(position) + n && r.bytes == Data()[old(position)..position]
    {
      hide Links, BlockStart, BlockOf, Join;
      NodeFacts(0);
      if n > size - position { return OutOfRange; }
      EndIndex(|nodes|, position, baseSize);
      if cur == null { return NullCursor; }
      if n == 0 { return Bytes([]); }
      var bytes := ReadSome(n);
      r := Bytes(bytes);
    }

    /** `toString`: everything from the position to the end, moving nothing. */
    method ToString() returns (s: seq<Byte>)
      requires Valid()
      ensures s == Data()[position..]
    {
      if size == position { return []; }
      var npos;
      ghost var at;
      npos, at := Locate();
      var next;
      s, next := ReadBlocks(at, cur, npos, size - position);
    }

    // -------------------------------------------------------------- seeking and clearing

    /** Moves the position anywhere up to the capacity, extending the size to it if need be. */
    method SetPosition(v: nat) returns (ok: bool)
      requires Valid()
      modifies this`cur, this`position, this`size
      ensures Valid()
      ensures ok <==> v <= capacity
      ensures position == if ok then v else old(position)
      ensures size == if ok && v > old(size) then v else old(size)
      ensures Store() == old(Store())
    {
      if v > capacity { return false; }
      position := v;
      if position > size { size := position; }
      cur := Seek(v);
      PositionRange(v, baseSize);
      ok := true;
    }

    /** The walk of `setPosition`: whole blocks are stepped over while more than one is left. */
    method Walk(v: nat) returns (node: Node, left: nat, ghost at: nat)
      requires Links() && v <= capacity
      ensures Links() && at < |nodes| && node == nodes[at] && v == BlockStart(at, baseSize) + left && left <= baseSize
    {
      NodeFacts(0);
      BlocksAdd(0, 1, baseSize);
      node, left, at := root, v, 0;
      hide Links, BlockStart;
      while left > baseSize
        invariant Links() && at < |nodes| && node == nodes[at] && v == BlockStart(at, baseSize) + left
      {
        NodeFacts(at);
        Below(|nodes|, at + 1, baseSize);
        BlocksAdd(at, 1, baseSize);
        left := left - baseSize;
        node := node.next;
        at := at + 1;
      }
    }

    method Seek(v: nat) returns (node: Node?)
      requires Links() && v <= capacity
      ensures BlockOf(v, baseSize) <= |nodes| && node == NodeAt(nodes, BlockOf(v, baseSize))
    {
      hide Links, BlockStart, BlockOf;
      var left;
      ghost var at;
      node, left, at := Walk(v);
      NodeFacts(at);
      BlocksAdd(at, 1, baseSize);
      if left == node.size {
        CursorIndex(at + 1, 0, baseSize);
        node := node.next;
      } else {
        CursorIndex(at, left, baseSize);
      }
    }

    /** Back to one block, position and size zero; the first block keeps its bytes. */
    method Clear()
      requires Valid()
      modifies this`capacity, this`cur, this`position, this`size, this`nodes, this`blocks, root`next
      ensures Valid() && position == size == 0 && capacity == baseSize && Data() == []
      ensures root == old(root) && nodes == [root] && blocks == old(blocks[..1])
    {
      position, size, capacity := 0, 0, baseSize;
      nodes, blocks := nodes[..1], blocks[..1];
      cur := root;
      root.next := null;
      CursorIndex(0, 0, baseSize);
      BlocksAdd(0, 1, baseSize);
      JoinLength(blocks, baseSize);
    }

    // -------------------------------------------------------------- write buffers

    /** The vectors are the next n bytes from offset `off` of block `at`, block by block. */
    ghost predicate Vectors(iovs: seq<Iovec>, at: nat, off: nat, n: nat)
      reads this`nodes
      decreases |iovs|
    {
      if n == 0 || off >= baseSize then iovs == []
      else
        && |iovs| > 0 && at < |nodes|
        && var m := Min(n, baseSize - off);
        && iovs[0] == Iovec(nodes[at].data, off, m)
        && Vectors(iovs[1..], at + 1, 0, n - m)
    }

    /** Grows if need be and returns the vectors of the next n bytes, changing nothing else. */
    method GetWriteBuffers(n: nat) returns (iovs: seq<Iovec>)
      requires Valid()
      modifies this`capacity, this`cur, this`nodes, this`blocks, nodes
      ensures Valid() && |old(nodes)| <= |nodes| && nodes[..|old(nodes)|] == old(nodes)
      ensures forall k :: |old(nodes)| <= k < |nodes| ==> fresh(nodes[k]) && fresh(nodes[k].data)
      ensures n > 0 ==>
                var at := BlockOf(position, baseSize); Vectors(iovs, at, position - BlockStart(at, baseSize), n)
      ensures n == 0 ==> iovs == []
      ensures capacity >= position + n && capacity >= old(capacity) && Store()[..old(capacity)] == old(Store())
      ensures capacity > old(capacity) ==> old(capacity) < position + n && capacity - baseSize < position + n
    {
      hide Links, BlockStart, BlockOf, Join;
      NodeFacts(0);
      if n == 0 { return []; }
      AddCapacity(n);
      NodeFacts(0);
      var npos;
      ghost var at;
      npos, at := Locate();
      iovs := Collect(at, cur, npos, n);
    }

    /** Vectors that each reach the end of their block. */
    ghost predicate FullVectors(iovs: seq<Iovec>, at: nat, off: nat, n: nat)
      reads this`nodes
      decreases |iovs|
    {
      if iovs == [] then n == 0
      else
        && at < |nodes| && off < baseSize && baseSize - off <= n
        && iovs[0] == Iovec(nodes[at].data, off, baseSize - off)
        && FullVectors(iovs[1..], at + 1, 0, n - (baseSize - off))
    }

    /** Where full vectors end the next one starts. */
    ghost function NextOff(iovs: seq<Iovec>, off: nat): nat {
      if iovs == [] then off else 0
    }

    lemma {:induction false} FullThenMore(iovs: seq<Iovec>, at: nat, off: nat, n: nat, m: nat)
      requires FullVectors(iovs, at, off, n) && at + |iovs| < |nodes| && NextOff(iovs, off) < baseSize
      requires 0 < m <= baseSize - NextOff(iovs, off)
      ensures var last := [Iovec(nodes[at + |iovs|].data, NextOff(iovs, off), m)];
              && Vectors(iovs + last, at, off, n + m)
              && (m == baseSize - NextOff(iovs, off) ==> FullVectors(iovs + last, at, off, n + m))
      decreases |iovs|
    {
      var last := [Iovec(nodes[at + |iovs|].data, NextOff(iovs, off), m)];
      if iovs == [] {
        assert iovs + last == last && last[1..] == [];
      } else {
        FullThenMore(iovs[1..], at + 1, 0, n - (baseSize - off), m);
        assert (iovs + last)[1..] == iovs[1..] + last && (iovs + last)[0] == iovs[0];
      }
    }

    /** The loop of `getWriteBuffers`, from offset `off` of block `node`. */
    method Collect(ghost at: nat, node: Node, off: nat, n: nat) returns (iovs: seq<Iovec>)
      requires Links() && at < |nodes| && node == nodes[at] && off < baseSize && n > 0
      requires BlockStart(at, baseSize) + off + n <= capacity
      ensures Links() && Vectors(iovs, at, off, n)
    {
      hide Links, BlockStart, BlockOf, Join, Vectors, FullVectors;
      NodeFacts(at);
      FullNothing(at, off);
      var cur, npos, left := node, off, n;
      var ncap := baseSize - npos;
      iovs := [];
      while left > 0
        invariant Links() && 0 <= left <= n
        invariant left > 0 ==>
                  FullVectors(iovs, at, off, n - left) && at + |iovs| < |nodes| && cur == nodes[at + |iovs|]
        invariant left > 0 ==> npos == NextOff(iovs, off) && ncap == baseSize - npos && npos < baseSize
        invariant left > 0 ==> BlockStart(at + |iovs|, baseSize) + npos + left <= capacity
        invariant left == 0 ==> Vectors(iovs, at, off, n)
        decreases left
      {
        ghost var here := at + |iovs|;
        NodeFacts(here);
        CursorMoves(here, npos, Min(left, ncap), left);
        FullThenMore(iovs, at, off, n - left, Min(left, ncap));
        if ncap >= left {
          iovs := iovs + [Iovec(cur.data, npos, left)];
          left := 0;
        } else {
          iovs := iovs + [Iovec(cur.data, npos, ncap)];
          left := left - ncap;
          cur := cur.next;
          ncap := cur.size;
          npos := 0;
          NodeFacts(here + 1);
        }
      }
    }

    lemma FullNothing(at: nat, off: nat)
      ensures FullVectors([], at, off, 0)
    {
    }

    /** What `readv` does with the vectors: the bytes go into them in order. */
    method Scatter(iovs: seq<Iovec>, ghost at: nat, ghost off: nat, ghost n: nat, bytes: seq<Byte>)
      requires Links() && Vectors(iovs, at, off, n) && off < baseSize && |bytes| <= n
      requires BlockStart(at, baseSize) + off + n <= capacity
      modifies this`blocks, Arrays(nodes)
      ensures Links()
      ensures Store() == Overwrite(old(Store()), BlockStart(at, baseSize) + off, bytes)
      decreases |iovs|
    {
      hide Links, BlockStart, BlockOf, Join, Overwrite;
      NodeFacts(0);
      ghost var flat := Store();
      OverwriteNothing(flat, BlockStart(at, baseSize) + off);
      if |bytes| == 0 { assert bytes == []; return; }
      var m := Min(|bytes|, iovs[0].len);
      FillBlock(at, iovs[0].data, iovs[0].off, bytes[..m]);
      assert bytes == bytes[..m] + bytes[m..];
      OverwriteTwice(flat, BlockStart(at, baseSize) + off, bytes[..m], bytes[m..]);
      if m < |bytes| {
        CursorMoves(at, off, m, n);
        Scatter(iovs[1..], at + 1, 0, n - m, bytes[m..]);
      } else {
        assert bytes[..m] == bytes;
      }
    }

    /** Filling part of one block. */
    method FillBlock(ghost at: nat, data: array<Byte>, o: nat, chunk: seq<Byte>)
      requires Links() && at < |nodes| && data == nodes[at].data && o + |chunk| <= baseSize
      modifies this`blocks, data
      ensures Links()
      ensures BlockStart(at, baseSize) + o + |chunk| <= capacity
      ensures Store() == Overwrite(old(Store()), BlockStart(at, baseSize) + o, chunk)
    {
      JoinUpdate(blocks, baseSize, at, o, chunk);
      JoinLength(blocks, baseSize);
      Fill(data, o, chunk);
      blocks := blocks[at := Overwrite(blocks[at], o, chunk)];
    }

    /** Filling write buffers and seeking past what was filled has exactly the effect of `Write`. */
    method ReceiveInto(n: nat, bytes: seq<Byte>)
      requires Valid() && |bytes| <= n
      modifies this`capacity, this`cur, this`nodes, this`blocks, this`position, this`size, nodes, Arrays(nodes)
      ensures Valid() && |old(nodes)| <= |nodes| && nodes[..|old(nodes)|] == old(nodes)
      ensures forall k :: |old(nodes)| <= k < |nodes| ==> fresh(nodes[k]) && fresh(nodes[k].data)
      ensures position == old(position) + |bytes|
      ensures Data() == Extend(old(Data()), old(position), bytes)
    {
      hide Links, BlockStart, BlockOf, Join, Extend, Overwrite;
      NodeFacts(0);
      PositionRange(position, baseSize);
      var iovs := GetWriteBuffers(n);
      NodeFacts(0);
      ghost var flat := Store();
      OverwriteNothing(flat, position);
      if n > 0 {
        ghost var at := BlockOf(position, baseSize);
        Scatter(iovs, at, position - BlockStart(at, baseSize), n, bytes);
      } else {
        assert bytes == [];
      }
      NodeFacts(0);
      assert Store() == Overwrite(flat, position, bytes);
      var ok := SetPosition(position + |bytes|);
      OverwritePrefix(flat, old(position), bytes, old(size));
      assert flat[..old(size)] == flat[..old(capacity)][..old(size)];
    }
  }
}
