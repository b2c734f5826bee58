/** What a run of operations on a `ByteArray` does, stated without blocks: the block size does not
    show as long as seeks stay within the size and no read is empty. Beyond that, a run on one array
    still follows a flat array, whose seeks past the size uncover bytes and stop at the capacity. */
module BlockSizes {
  import opened Flat
  import opened ByteArrays

  datatype Op =
    | WriteOp(bytes: seq<Byte>)
    | ReadOp(n: nat)
    | SeekOp(v: nat)
    | ClearOp
    | ReceiveOp(n: nat, bytes: seq<Byte>)

  /** A flat array: bytes and a position. */
  datatype FlatArray = FlatArray(data: seq<Byte>, position: nat)

  datatype Result = Done | Got(bytes: seq<Byte>) | Refused | Crash

  predicate Ok(f: FlatArray) { f.position <= |f.data| }

  /** No more bytes are received than there is room for. */
  predicate Sound(op: Op) {
    op.ReceiveOp? ==> |op.bytes| <= op.n
  }

  predicate Visible(f: FlatArray, op: Op) {
    Sound(op) && (op.ReadOp? ==> op.n > 0) && (op.SeekOp? ==> op.v <= |f.data|)
  }

  function After(f: FlatArray, op: Op): (f': FlatArray)
    requires Ok(f) && Visible(f, op)
    ensures Ok(f')
  {
    match op
    case WriteOp(b) => FlatArray(Extend(f.data, f.position, b), f.position + |b|)
    case ReadOp(n) => if f.position + n <= |f.data| then f.(position := f.position + n) else f
    case SeekOp(v) => f.(position := v)
    case ClearOp => FlatArray([], 0)
    case ReceiveOp(_, b) => FlatArray(Extend(f.data, f.position, b), f.position + |b|)
  }

  function Answer(f: FlatArray, op: Op): Result
    requires Ok(f)
  {
    match op
    case ReadOp(n) => if f.position + n <= |f.data| then Got(f.data[f.position..f.position + n]) else Refused
    case _ => Done
  }

  predicate AllVisible(f: FlatArray, ops: seq<Op>)
    requires Ok(f)
    decreases |ops|
  {
    ops == [] || (Visible(f, ops[0]) && AllVisible(After(f, ops[0]), ops[1..]))
  }

  function Run(f: FlatArray, ops: seq<Op>): (r: (FlatArray, seq<Result>))
    requires Ok(f) && AllVisible(f, ops)
    decreases |ops|
  {
    if ops == [] then (f, [])
    else
      var rest := Run(After(f, ops[0]), ops[1..]);
      (rest.0, [Answer(f, ops[0])] + rest.1)
  }

  ghost function View(ba: ByteArray): FlatArray
    requires ba.Valid()
    reads ba, ba.nodes, Arrays(ba.nodes)
  {
    FlatArray(ba.Data(), ba.position)
  }

  /** The blocks are old ones or new ones. */
  twostate predicate OldOrFresh(ba: ByteArray)
    reads ba
  {
    forall k :: 0 <= k < |ba.nodes| ==>
      && (ba.nodes[k] in old(ba.nodes) || fresh(ba.nodes[k]))
      && (ba.nodes[k].data in Arrays(old(ba.nodes)) || fresh(ba.nodes[k].data))
  }

  twostate lemma GrownOldOrFresh(ba: ByteArray)
    requires |old(ba.nodes)| <= |ba.nodes| && ba.nodes[..|old(ba.nodes)|] == old(ba.nodes)
    requires forall k :: |old(ba.nodes)| <= k < |ba.nodes| ==> fresh(ba.nodes[k]) && fresh(ba.nodes[k].data)
    ensures OldOrFresh(ba)
  {
    forall k | 0 <= k < |old(ba.nodes)| ensures ba.nodes[k] in old(ba.nodes) {
      assert ba.nodes[k] == old(ba.nodes)[k];
    }
  }

  method Perform(ba: ByteArray, op: Op) returns (r: Result)
    requires ba.Valid() && Visible(View(ba), op)
    modifies ba, ba.nodes, Arrays(ba.nodes)
    ensures ba.Valid() && View(ba) == After(old(View(ba)), op) && r == Answer(old(View(ba)), op)
    ensures OldOrFresh(ba)
  {
    hide ByteArray.Links, ByteArray.CursorAt;
    match op
    case WriteOp(b) =>
      ba.Write(b);
      GrownOldOrFresh(ba);
      r := Done;
    case ReadOp(n) =>
      var rr := ba.Read(n);
      r := if rr.Bytes? then Got(rr.bytes) else Refused;
    case SeekOp(v) =>
      var ok := ba.SetPosition(v);
      r := Done;
    case ClearOp =>
      ba.NodeFacts(0);
      ba.Clear();
      r := Done;
    case ReceiveOp(n, b) =>
      ba.ReceiveInto(n, b);
      GrownOldOrFresh(ba);
      r := Done;
  }

  /** Every run of operations answers as the flat array does. */
  method PerformAll(ba: ByteArray, ops: seq<Op>) returns (rs: seq<Result>)
    requires ba.Valid() && AllVisible(View(ba), ops)
    modifies ba, ba.nodes, Arrays(ba.nodes)
    ensures ba.Valid()
    ensures (View(ba), rs) == Run(old(View(ba)), ops)
    decreases |ops|
  {
    hide ByteArray.Links, ByteArray.CursorAt;
    if ops == [] { return []; }
    var r := Perform(ba, ops[0]);
    rs := PerformAll(ba, ops[1..]);
    rs := [r] + rs;
  }

  /** A fresh array put through a run: the answers, the final position and all its bytes. */
  method Outcome(base: nat, ops: seq<Op>) returns (rs: seq<Result>, position: nat, bytes: seq<Byte>)
    requires base >= 1 && AllVisible(FlatArray([], 0), ops)
    ensures (FlatArray(bytes, position), rs) == Run(FlatArray([], 0), ops)
  {
    hide ByteArray.Links, ByteArray.CursorAt;
    var ba := new ByteArray(base);
    rs := PerformAll(ba, ops);
    position := ba.position;
    var ok := ba.SetPosition(0);
    bytes := ba.ToString();
  }

  /** Two arrays of different block sizes give the same answers and end with the same bytes at the
      same position. */
  method SameForAnyBlockSize(base1: nat, base2: nat, ops: seq<Op>)
    returns (rs1: seq<Result>, rs2: seq<Result>, p1: nat, p2: nat, bytes1: seq<Byte>, bytes2: seq<Byte>)
    requires base1 >= 1 && base2 >= 1 && AllVisible(FlatArray([], 0), ops)
    ensures rs1 == rs2 && p1 == p2 && bytes1 == bytes2
  {
    rs1, p1, bytes1 := Outcome(base1, ops);
    rs2, p2, bytes2 := Outcome(base2, ops);
  }

  // ---------------------------------------------------------------- one array, all seeks and reads

  /** What an operation may do on an array of a given capacity. A seek past the size makes the bytes up
      to it part of the content, whatever they are; an empty read at the capacity crashes. */
  predicate Follows(f: FlatArray, capacity: nat, op: Op, r: Result, f': FlatArray)
    requires Ok(f)
  {
    match op
    case ReadOp(n) =>
      f' == (if f.position + n <= |f.data| then f.(position := f.position + n) else f)
      && r == (if n == 0 && f.position == capacity then Crash else Answer(f, op))
    case SeekOp(v) =>
      if v > capacity then f' == f && r == Refused
      else r == Done && f'.position == v && |f'.data| == (if v > |f.data| then v else |f.data|) && f.data <= f'.data
    case _ => Sound(op) && f' == After(f, op) && r == Done
  }

  method PerformAny(ba: ByteArray, op: Op) returns (r: Result)
    requires ba.Valid() && Sound(op)
    modifies ba, ba.nodes, Arrays(ba.nodes)
    ensures ba.Valid() && Follows(old(View(ba)), old(ba.capacity), op, r, View(ba)) && OldOrFresh(ba)
  {
    hide ByteArray.Links, ByteArray.CursorAt;
    match op
    case ReadOp(n) =>
      var rr := ba.Read(n);
      r := match rr case Bytes(bytes) => Got(bytes) case OutOfRange => Refused case NullCursor => Crash;
    case SeekOp(v) =>
      ba.NodeFacts(0);
      ghost var was := ba.Data();
      var ok := ba.SetPosition(v);
      assert ba.Data()[..|was|] == was;
      r := if ok then Done else Refused;
    case _ =>
      r := Perform(ba, op);
  }

  /** A run: states and capacities joined by what the operations may do. */
  ghost predicate FollowsAll(states: seq<FlatArray>, capacities: seq<nat>, ops: seq<Op>, rs: seq<Result>) {
    && |states| == |capacities| == |ops| + 1 && |rs| == |ops|
    && forall i :: 0 <= i < |ops| ==> Ok(states[i]) && Follows(states[i], capacities[i], ops[i], rs[i], states[i + 1])
  }

  /** Every run of writes, reads, seeks, clears and receives on one array follows the flat array. */
  method RunAny(ba: ByteArray, ops: seq<Op>)
    returns (rs: seq<Result>, ghost states: seq<FlatArray>, ghost capacities: seq<nat>)
    requires ba.Valid() && forall i :: 0 <= i < |ops| ==> Sound(ops[i])
    modifies ba, ba.nodes, Arrays(ba.nodes)
    ensures ba.Valid() && FollowsAll(states, capacities, ops, rs)
    ensures states[0] == old(View(ba)) && states[|ops|] == View(ba)
    ensures capacities[0] == old(ba.capacity) && capacities[|ops|] == ba.capacity
    decreases |ops|
  {
    hide ByteArray.Links, ByteArray.CursorAt, Follows;
    if ops == [] { return [], [View(ba)], [ba.capacity]; }
    ghost var first, room := View(ba), ba.capacity;
    var r := PerformAny(ba, ops[0]);
    rs, states, capacities := RunAny(ba, ops[1..]);
    RunLonger(first, room, ops[0], r, states, capacities, ops[1..], rs);
    assert [ops[0]] + ops[1..] == ops;
    rs, states, capacities := [r] + rs, [first] + states, [room] + capacities;
  }

  lemma RunLonger(
      f: FlatArray, capacity: nat, op: Op, r: Result,
      states: seq<FlatArray>, capacities: seq<nat>, ops: seq<Op>, rs: seq<Result>)
    requires FollowsAll(states, capacities, ops, rs) && Ok(f) && Follows(f, capacity, op, r, states[0])
    ensures FollowsAll([f] + states, [capacity] + capacities, [op] + ops, [r] + rs)
  {
    hide Follows;
  }
}
