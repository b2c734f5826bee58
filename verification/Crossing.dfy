/** A run of two or more workers in which the later of two unpinned callbacks starts first. */
module Crossing {
  import opened EventTable
  import opened Invariants
  import opened Scenarios
  import opened Tasks
  import opened Theorems
  import opened World
  import opened Wrappers

  const CROSSED := [Take(FIRST, 0), Take(SECOND, 1)]

  /** The two workers at work, and n that stay at the top of their loop. */
  function Crew(w0: Worker, w1: Worker, n: nat): (r: seq<Worker>)
    ensures |r| == n + 2 && r[0] == w0 && r[1] == w1 && forall i :: 2 <= i < n + 2 ==> r[i] == Bare(Top)
  {
    [w0, w1] + seq(n, _ => Bare(Top))
  }

  lemma CrewStep(w0: Worker, w1: Worker, n: nat, w: Worker)
    ensures Crew(w0, w1, n)[0 := w] == Crew(w, w1, n) && Crew(w0, w1, n)[1 := w] == Crew(w0, w, n)
  {
  }

  /** Worker 0 takes the first callback, worker 1 the second, and worker 1 is quicker. */
  function CrossedSteps(): seq<Step> {
    [Post(-1), Post(-1), Acquire(0), Dequeue(0), Acquire(1), Dequeue(1), Branch(1), SwapIn(1), Branch(0), SwapIn(0)]
  }

  function Own(pc: Pc, f: FiberId, last: Entry): Worker {
    Worker(pc, Some(f), false, Some(last), map[], 0)
  }

  function Base(w0: Worker, w1: Worker, n: nat, fibers: seq<Fiber>, queue: seq<Entry>, active: int): World {
    Duo(w0, w1, fibers, queue, active, BOTH, [], [], {}, {}).(workers := Crew(w0, w1, n))
  }

  function Crossed(n: nat, i: nat): World
    requires i <= 10
  {
    if i == 0 then Base(Bare(Top), Bare(Top), n, [], [], 0).(log := [])
    else if i == 1 then Base(Bare(Top), Bare(Top), n, [], [FIRST], 0).(log := [FIRST])
    else if i == 2 then Base(Bare(Top), Bare(Top), n, [], BOTH, 0)
    else if i == 3 then Base(Bare(Scan(0)), Bare(Top), n, [], BOTH, 0)
    else if i == 4 then Base(Bare(Taken(FIRST)), Bare(Top), n, [], [SECOND], 1).(taken := ONE)
    else if i == 5 then Base(Bare(Taken(FIRST)), Bare(Scan(0)), n, [], [SECOND], 1).(taken := ONE)
    else if i == 6 then Base(Bare(Taken(FIRST)), Bare(Taken(SECOND)), n, [], [], 2).(taken := CROSSED)
    else if i == 7 then
      Base(Bare(Taken(FIRST)), Own(Prepared(0, true), 0, SECOND), n, [NEW], [], 2).(taken := CROSSED)
    else if i == 8 then
      Base(Bare(Taken(FIRST)), Own(Running(0, true, Quiet), 0, SECOND), n, [RUNS], [], 2).(
        taken := CROSSED, starts := [Take(SECOND, 1)])
    else if i == 9 then
      Base(Own(Prepared(1, true), 1, FIRST), Own(Running(0, true, Quiet), 0, SECOND), n, [RUNS, NEW], [], 2).(
        taken := CROSSED, starts := [Take(SECOND, 1)])
    else
      Base(Own(Running(1, true, Quiet), 1, FIRST), Own(Running(0, true, Quiet), 0, SECOND), n, [RUNS, RUNS], [], 2).(
        taken := CROSSED, starts := [Take(SECOND, 1), Take(FIRST, 0)])
  }

  ghost predicate CrossedGoes(n: nat, i: nat)
    requires i < 10
  {
    Enabled(Crossed(n, i), CrossedSteps()[i]) && Apply(Crossed(n, i), CrossedSteps()[i]) == Crossed(n, i + 1)
  }

  lemma Posts(n: nat, i: nat)
    requires i < 2
    ensures CrossedGoes(n, i)
  {
    hide Crew;
  }

  lemma FirstScan(n: nat)
    ensures CrossedGoes(n, 2)
  {
    hide Crew;
    CrewStep(Bare(Top), Bare(Top), n, Bare(Scan(0)));
  }

  lemma FirstTaken(n: nat)
    ensures CrossedGoes(n, 3)
  {
    hide Crew;
    CrewStep(Bare(Scan(0)), Bare(Top), n, Bare(Taken(FIRST)));
  }

  lemma SecondScan(n: nat)
    ensures CrossedGoes(n, 4)
  {
    hide Crew;
    CrewStep(Bare(Taken(FIRST)), Bare(Top), n, Bare(Scan(0)));
  }

  lemma SecondTaken(n: nat)
    ensures CrossedGoes(n, 5)
  {
    hide Crew;
    CrewStep(Bare(Taken(FIRST)), Bare(Scan(0)), n, Bare(Taken(SECOND)));
  }

  lemma SecondBranches(n: nat)
    ensures CrossedGoes(n, 6)
  {
    hide Crew;
    CrewStep(Bare(Taken(FIRST)), Bare(Taken(SECOND)), n, Own(Prepared(0, true), 0, SECOND));
  }

  lemma SecondStarts(n: nat)
    ensures CrossedGoes(n, 7)
  {
    hide Crew;
    CrewStep(Bare(Taken(FIRST)), Own(Prepared(0, true), 0, SECOND), n, Own(Running(0, true, Quiet), 0, SECOND));
  }

  lemma FirstBranches(n: nat)
    ensures CrossedGoes(n, 8)
  {
    hide Crew;
    CrewStep(Bare(Taken(FIRST)), Own(Running(0, true, Quiet), 0, SECOND), n, Own(Prepared(1, true), 1, FIRST));
  }

  lemma FirstStarts(n: nat)
    ensures CrossedGoes(n, 9)
  {
    hide Crew;
    var runner := Own(Running(1, true, Quiet), 1, FIRST);
    CrewStep(Own(Prepared(1, true), 1, FIRST), Own(Running(0, true, Quiet), 0, SECOND), n, runner);
  }

  lemma EveryCrossedFrame(n: nat, i: nat)
    requires i < 10
    ensures CrossedGoes(n, i)
  {
    hide CrossedGoes;
    if i < 2 { Posts(n, i); }
    else if i == 2 { FirstScan(n); }
    else if i == 3 { FirstTaken(n); }
    else if i == 4 { SecondScan(n); }
    else if i == 5 { SecondTaken(n); }
    else if i == 6 { SecondBranches(n); }
    else if i == 7 { SecondStarts(n); }
    else if i == 8 { FirstBranches(n); }
    else { FirstStarts(n); }
  }

  function CrossedFrames(n: nat): (trace: seq<World>)
    ensures |trace| == 11 && forall i :: 0 <= i <= 10 ==> trace[i] == Crossed(n, i)
  {
    seq(11, i requires 0 <= i <= 10 => Crossed(n, i))
  }

  lemma CrossedEnds(n: nat)
    ensures Init(Crossed(n, 0)) && |Crossed(n, 0).workers| == n + 2
    ensures Crossed(n, 10).starts == [Take(SECOND, 1), Take(FIRST, 0)] && !StartsSorted(Crossed(n, 10))
  {
    var starts := Crossed(n, 10).starts;
    assert starts[0].entry.serial > starts[1].entry.serial && starts[0].entry.pin == starts[1].entry.pin == -1;
  }

  /** With two workers or more, unpinned callbacks are dequeued but need not start in the order they were
      scheduled. */
  lemma StartsOutOfOrder(n: nat) returns (trace: seq<World>)
    ensures IsRun(trace, CrossedSteps()) && |trace[0].workers| == n + 2
    ensures trace[10].starts == [Take(SECOND, 1), Take(FIRST, 0)] && !StartsSorted(trace[10])
  {
    hide Enabled, Apply, Crossed, Init, StartsSorted;
    trace := CrossedFrames(n);
    var steps := CrossedSteps();
    forall i | 0 <= i < |steps| ensures Enabled(trace[i], steps[i]) && trace[i + 1] == Apply(trace[i], steps[i]) {
      EveryCrossedFrame(n, i);
    }
    CrossedEnds(n);
  }

  /** Every run of a given number of workers starts unpinned callbacks in the order they were scheduled. */
  ghost predicate AlwaysInOrder(workers: nat) {
    forall trace: seq<World>, steps ::
      IsRun(trace, steps) && |trace[0].workers| == workers ==> StartsSorted(trace[|steps|])
  }

  /** That holds if and only if there is one worker. */
  lemma StartsInOrder(workers: nat)
    requires workers >= 1
    ensures AlwaysInOrder(workers) <==> workers == 1
  {
    hide Enabled, Apply, Init, StartsSorted;
    if workers == 1 {
      forall trace: seq<World>, steps | IsRun(trace, steps) && |trace[0].workers| == 1
        ensures StartsSorted(trace[|steps|]) {
        OneWorkerInOrder(trace, steps, |steps|);
      }
    } else {
      var trace := StartsOutOfOrder(workers - 2);
      assert IsRun(trace, CrossedSteps());
    }
  }
}
