/** A run of two workers in which a callback fiber is recycled. */
module Scenarios {
  import opened Callbacks
  import opened EventTable
  import opened Invariants
  import opened Tasks
  import opened Theorems
  import opened World
  import opened Wrappers

  /** Two workers, no timers, nothing registered, not stopping. */
  function Duo(
      w0: Worker, w1: Worker, fibers: seq<Fiber>, queue: seq<Entry>, active: int,
      log: seq<Entry>, taken: seq<Take>, starts: seq<Take>, untidy: set<FiberId>, recycled: set<FiberId>): World
  {
    World([w0, w1], fibers, queue, active, 0, Table([NO_WAITERS, NO_WAITERS], map[], 0), map[], false, false, false,
          log, taken, starts, 0, {}, {}, untidy, recycled)
  }

  /** A worker without a callback fiber. */
  function Bare(pc: Pc): Worker {
    Worker(pc, None, false, if pc.Taken? then Some(pc.entry) else None, map[], 0)
  }

  const FIRST := Entry(0, CbJob(Plain), -1, None)
  const SECOND := Entry(1, CbJob(Plain), -1, None)
  const SELF := Entry(2, FiberJob(0), -1, None)
  const NEW := Fiber(INIT, Plain)
  const RUNS := Fiber(EXEC, Plain)
  const ENDED := Fiber(TERM, Plain)

  lemma NothingWaits(s: World)
    requires s.table == Table([NO_WAITERS, NO_WAITERS], map[], 0)
    ensures forall fd: nat :: Context(s.table, fd) == NO_WAITERS
  {
  }

  /** Worker 0 with callback fiber 0. */
  function With(pc: Pc, last: Entry): Worker { Worker(pc, Some(0), false, Some(last), map[], 0) }

  const BOTH := [FIRST, SECOND]
  const ALL := [FIRST, SECOND, SELF]
  const ONE := [Take(FIRST, 0)]
  const TAKER := Worker(Prepared(0, false), None, false, Some(SELF), map[], 0)
  const TWO := [Take(FIRST, 0), Take(SECOND, 0)]

  /** Two callbacks are posted; worker 0 runs the first, which schedules its own fiber and returns.
      Worker 0 resets the fiber and prepares it for the second callback; worker 1 takes the stale
      wake-up and prepares the same fiber. */
  function Steps(): seq<Step> {
    [Post(-1), Post(-1), Acquire(0), Dequeue(0), Branch(0), SwapIn(0), WakeSelf(0, -1), Finish(0, false),
     SwapOut(0), Release(0), Settled(0), Acquire(0), Dequeue(0), Branch(0), Acquire(1), Dequeue(1), Branch(1),
     SwapIn(0)]
  }

  function Frame(i: nat): World
    requires i <= 18
  {
    if i == 0 then Duo(Bare(Top), Bare(Top), [], [], 0, [], [], [], {}, {})
    else if i == 1 then Duo(Bare(Top), Bare(Top), [], [FIRST], 0, [FIRST], [], [], {}, {})
    else if i == 2 then Duo(Bare(Top), Bare(Top), [], BOTH, 0, BOTH, [], [], {}, {})
    else if i == 3 then Duo(Bare(Scan(0)), Bare(Top), [], BOTH, 0, BOTH, [], [], {}, {})
    else if i == 4 then Duo(Bare(Taken(FIRST)), Bare(Top), [], [SECOND], 1, BOTH, ONE, [], {}, {})
    else if i == 5 then Duo(With(Prepared(0, true), FIRST), Bare(Top), [NEW], [SECOND], 1, BOTH, ONE, [], {}, {})
    else if i == 6 then
      Duo(With(Running(0, true, Quiet), FIRST), Bare(Top), [RUNS], [SECOND], 1, BOTH, ONE, ONE, {}, {})
    else if i == 7 then
      Duo(With(Running(0, true, Quiet), FIRST), Bare(Top), [RUNS], [SECOND, SELF], 1, ALL, ONE, ONE, {}, {})
    else if i == 8 then
      Duo(With(Leaving(0, true), FIRST), Bare(Top), [ENDED], [SECOND, SELF], 1, ALL, ONE, ONE, {0}, {})
    else if i == 9 then
      Duo(With(Returned(0, true), FIRST), Bare(Top), [ENDED], [SECOND, SELF], 1, ALL, ONE, ONE, {0}, {})
    else if i == 10 then
      Duo(With(Settle(0, true), FIRST), Bare(Top), [ENDED], [SECOND, SELF], 0, ALL, ONE, ONE, {0}, {})
    else if i == 11 then Duo(With(Top, FIRST), Bare(Top), [NEW], [SECOND, SELF], 0, ALL, ONE, ONE, {0}, {0})
    else if i == 12 then Duo(With(Scan(0), FIRST), Bare(Top), [NEW], [SECOND, SELF], 0, ALL, ONE, ONE, {0}, {0})
    else if i == 13 then Duo(With(Taken(SECOND), SECOND), Bare(Top), [NEW], [SELF], 1, ALL, TWO, ONE, {0}, {0})
    else if i == 14 then Duo(With(Prepared(0, true), SECOND), Bare(Top), [NEW], [SELF], 1, ALL, TWO, ONE, {0}, {0})
    else if i == 15 then Duo(With(Prepared(0, true), SECOND), Bare(Scan(0)), [NEW], [SELF], 1, ALL, TWO, ONE, {0}, {0})
    else if i == 16 then
      Duo(With(Prepared(0, true), SECOND), Bare(Taken(SELF)), [NEW], [], 2, ALL, TWO + [Take(SELF, 1)], ONE, {0}, {0})
    else if i == 17 then
      Duo(With(Prepared(0, true), SECOND), TAKER, [NEW], [], 2, ALL,
          TWO + [Take(SELF, 1)], ONE, {0}, {0})
    else
      Duo(With(Running(0, true, Quiet), SECOND), TAKER, [RUNS], [], 2,
          ALL, TWO + [Take(SELF, 1)], TWO, {0}, {0})
  }

  ghost predicate Goes(i: nat)
    requires i < 18
  {
    Enabled(Frame(i), Steps()[i]) && Apply(Frame(i), Steps()[i]) == Frame(i + 1)
  }

  lemma PostsAndScan(i: nat)
    requires i < 3
    ensures Goes(i)
  {
  }

  lemma TakesAndStarts(i: nat)
    requires 3 <= i < 6
    ensures Goes(i)
  {
  }

  lemma WakesItself()
    ensures Goes(6)
  {
    NothingWaits(Frame(6));
  }

  /** The stale wake-up. */
  lemma StaleWake(i: nat)
    requires 7 <= i <= 10
    ensures Holds(Frame(i), InQueue(2), 0)
  {
    assert Frame(i).queue[1] == SELF;
  }

  lemma Ends()
    ensures Goes(7)
  {
    StaleWake(7);
  }

  lemma Leaves(i: nat)
    requires 8 <= i < 10
    ensures Goes(i)
  {
  }

  lemma Resets()
    ensures Goes(10)
  {
    StaleWake(10);
  }

  lemma TakesSecond(i: nat)
    requires 11 <= i < 14
    ensures Goes(i)
  {
  }

  lemma TakesStale(i: nat)
    requires 14 <= i < 16
    ensures Goes(i)
  {
  }

  lemma Collides(i: nat)
    requires 16 <= i < 18
    ensures Goes(i)
  {
  }

  lemma EveryFrame(i: nat)
    requires i < 18
    ensures Goes(i)
  {
    hide Goes;
    if i < 3 { PostsAndScan(i); }
    else if i < 6 { TakesAndStarts(i); }
    else if i == 6 { WakesItself(); }
    else if i == 7 { Ends(); }
    else if i < 10 { Leaves(i); }
    else if i == 10 { Resets(); }
    else if i < 14 { TakesSecond(i); }
    else if i < 16 { TakesStale(i); }
    else { Collides(i); }
  }

  function Frames(n: nat): (trace: seq<World>)
    requires n <= 18
    ensures |trace| == n + 1 && forall i :: 0 <= i <= n ==> trace[i] == Frame(i)
  {
    seq(n + 1, i requires 0 <= i <= n => Frame(i))
  }

  lemma FirstFrame()
    ensures Init(Frame(0))
  {
  }

  /** Two workers are at one fiber. */
  predicate Collide(s: World, f: FiberId) {
    |s.workers| == 2 && PcFiber(s.workers[0].pc) == PcFiber(s.workers[1].pc) == Some(f)
  }

  /** A worker is about to call `swapIn` on a fiber that is running. */
  predicate SwapInFails(s: World, w: nat) {
    && w < |s.workers| && s.workers[w].pc.Prepared?
    && s.workers[w].pc.f < |s.fibers| && s.fibers[s.workers[w].pc.f].state == EXEC
  }

  lemma LastFrames()
    ensures LeavesWake(Frame(7), Steps()[7]) && Recycles(Frame(10), 0) && Frame(11).recycled == {0}
    ensures Collide(Frame(17), 0) && SwapInFails(Frame(18), 1)
  {
    StaleWake(7);
    StaleWake(10);
  }

  /** A callback that returns with a wake-up for its own fiber under way: its fiber is reset all the
      same, two workers come to be at it, and the assertion of `swapIn` is about to fail. */
  lemma CallbackFiberCollides() returns (trace: seq<World>)
    ensures IsRun(trace, Steps())
    ensures LeavesWake(trace[7], Steps()[7]) && Recycles(trace[10], 0) && trace[11].recycled == {0}
    ensures Collide(trace[17], 0) && SwapInFails(trace[18], 1)
  {
    hide Enabled, Apply, Frame, Init, LeavesWake, Recycles, Collide, SwapInFails;
    trace := Frames(18);
    var steps := Steps();
    forall i | 0 <= i < |steps| ensures Enabled(trace[i], steps[i]) && trace[i + 1] == Apply(trace[i], steps[i]) {
      EveryFrame(i);
    }
    FirstFrame();
    LastFrames();
  }
}
