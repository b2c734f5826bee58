/** A run of two workers in which a readiness report is out of date when it is acted on. */
module Race {
  import opened EventTable
  import opened Invariants
  import opened Reports
  import opened Scenarios
  import opened Tasks
  import opened Theorems
  import opened World
  import opened Wrappers

  const READER := Full(CbJob(Plain), 0)
  const WRITER := Full(CbJob(Plain), 1)
  const QUEUED := Entry(1, CbJob(Plain), -1, Some(1))

  /** A table with one descriptor in use. */
  function One(events: set<Event>, read: Slot, write: Slot, watched: set<Event>, pending: nat): Table {
    Table([FdContext(events, read, write), NO_WAITERS], map[0 := watched], pending)
  }

  const READING := One({READ}, READER, Empty, {READ}, 1)
  const BUSY := One({READ, WRITE}, READER, WRITER, {READ, WRITE}, 2)
  const CANCELLING := One({READ, WRITE}, READER, WRITER, {READ}, 2)

  /** A callback on worker 0 registers both events. Worker 1 is told that both are ready; before it gets
      to the lock, worker 0 cancels one. */
  function RaceSteps(): seq<Step> {
    [Post(-1), Acquire(0), Dequeue(0), Branch(0), SwapIn(0), WatchEvent(0, 0, READ), WatchEvent(0, 0, WRITE),
     Acquire(1), ScanEnd(1), Idling(1, Report(0, {READ, WRITE})), Cancel(0, 0, {WRITE}), Trigger(0), Fail(1, 0)]
  }

  function Caller(fire: Firing): Worker { With(Running(0, true, fire), FIRST) }

  /** Worker 1 in its idle fiber. */
  function Sleeper(held: map<nat, set<Event>>): Worker { Worker(Idle(Quiet), None, false, None, held, 0) }

  const BOTH_READY := map[0 := {READ, WRITE}]

  function Base(w0: Worker, w1: Worker, table: Table, regs: nat): World {
    Duo(w0, w1, [RUNS], [], 1, [FIRST], ONE, ONE, {}, {}).(table := table, regs := regs)
  }

  function RaceFrame(i: nat): World
    requires i <= 13
  {
    if i == 0 then Duo(Bare(Top), Bare(Top), [], [], 0, [], [], [], {}, {})
    else if i == 1 then Duo(Bare(Top), Bare(Top), [], [FIRST], 0, [FIRST], [], [], {}, {})
    else if i == 2 then Duo(Bare(Scan(0)), Bare(Top), [], [FIRST], 0, [FIRST], [], [], {}, {})
    else if i == 3 then Duo(Bare(Taken(FIRST)), Bare(Top), [], [], 1, [FIRST], ONE, [], {}, {})
    else if i == 4 then Duo(With(Prepared(0, true), FIRST), Bare(Top), [NEW], [], 1, [FIRST], ONE, [], {}, {})
    else if i == 5 then Duo(Caller(Quiet), Bare(Top), [RUNS], [], 1, [FIRST], ONE, ONE, {}, {})
    else if i == 6 then Base(Caller(Quiet), Bare(Top), READING, 1)
    else if i == 7 then Base(Caller(Quiet), Bare(Top), BUSY, 2)
    else if i == 8 then Base(Caller(Quiet), Bare(Scan(0)), BUSY, 2)
    else if i == 9 then Base(Caller(Quiet), Sleeper(map[]), BUSY, 2).(idle := 1)
    else if i == 10 then Base(Caller(Quiet), Sleeper(BOTH_READY), BUSY, 2).(idle := 1)
    else if i == 11 then Base(Caller(Firing(0, {WRITE})), Sleeper(BOTH_READY), CANCELLING, 2).(idle := 1)
    else
      Base(Caller(Quiet), Sleeper(BOTH_READY), READING, 2).(
        idle := 1, queue := [QUEUED], log := [FIRST, QUEUED], aborted := i == 13)
  }

  ghost predicate RaceGoes(i: nat)
    requires i < 13
  {
    Enabled(RaceFrame(i), RaceSteps()[i]) && Apply(RaceFrame(i), RaceSteps()[i]) == RaceFrame(i + 1)
  }

  lemma IsPosted()
    ensures RaceGoes(0)
  {
  }

  lemma IsScanned()
    ensures RaceGoes(1)
  {
  }

  lemma IsTaken()
    ensures RaceGoes(2)
  {
  }

  lemma Starts(i: nat)
    requires 3 <= i < 5
    ensures RaceGoes(i)
  {
  }

  lemma RegistersRead()
    ensures RaceGoes(5)
  {
    assert {} + {READ} == {READ};
  }

  lemma RegistersWrite()
    ensures RaceGoes(6)
  {
    assert {READ} + {WRITE} == {READ, WRITE};
  }

  lemma Scans()
    ensures RaceGoes(7)
  {
  }

  lemma GoesIdle()
    ensures RaceGoes(8)
  {
  }

  lemma IsTold()
    ensures RaceGoes(9)
  {
  }

  lemma Cancels()
    ensures RaceGoes(10)
  {
    assert {READ, WRITE} - {WRITE} == {READ};
  }

  lemma Triggers()
    ensures RaceGoes(11)
  {
    hide Outstanding, Eligible, Stopping, AddMask, DropMask;
    assert {READ, WRITE} - {WRITE} == {READ};
    assert {WRITE} - {WRITE} == {};
    assert Next({WRITE}) == WRITE;
  }

  lemma Fails()
    ensures RaceGoes(12)
  {
    assert READ in {READ, WRITE} * {READ};
  }

  lemma EveryRaceFrame(i: nat)
    requires i < 13
    ensures RaceGoes(i)
  {
    hide RaceGoes;
    if i == 0 { IsPosted(); }
    else if i == 1 { IsScanned(); }
    else if i == 2 { IsTaken(); }
    else if i < 5 { Starts(i); }
    else if i == 5 { RegistersRead(); }
    else if i == 6 { RegistersWrite(); }
    else if i == 7 { Scans(); }
    else if i == 8 { GoesIdle(); }
    else if i == 9 { IsTold(); }
    else if i == 10 { Cancels(); }
    else if i == 11 { Triggers(); }
    else { Fails(); }
  }

  function RaceFrames(): (trace: seq<World>)
    ensures |trace| == 14 && forall i :: 0 <= i <= 13 ==> trace[i] == RaceFrame(i)
  {
    seq(14, i requires 0 <= i <= 13 => RaceFrame(i))
  }

  /** The report names exactly what the kernel watches. */
  predicate NamesWatched(s: World, fd: nat, seen: set<Event>) {
    fd in s.table.kernel && s.table.kernel[fd] == seen
  }

  lemma RaceEnds()
    ensures Init(RaceFrame(0)) && NamesWatched(RaceFrame(9), 0, {READ, WRITE}) && RaceFrame(13).aborted
  {
  }

  /** Nobody hangs up and nobody errs: a report that names exactly the registered events when it is given
      is out of date when its worker gets to the lock, and the assertion of `triggerEvent` fails. */
  lemma StaleReportFails() returns (trace: seq<World>)
    ensures IsRun(trace, RaceSteps())
    ensures RaceSteps()[9] == Idling(1, Report(0, {READ, WRITE})) && NamesWatched(trace[9], 0, {READ, WRITE})
    ensures trace[13].aborted
  {
    hide Enabled, Apply, RaceFrame, Init;
    trace := RaceFrames();
    var steps := RaceSteps();
    forall i | 0 <= i < |steps| ensures Enabled(trace[i], steps[i]) && trace[i + 1] == Apply(trace[i], steps[i]) {
      EveryRaceFrame(i);
    }
    RaceEnds();
  }
}
