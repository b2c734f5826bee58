/** What a callback may leave behind: when the fiber it ran in can be given to the next one. */
module Callbacks {
  import opened EventTable
  import opened FiberSafety
  import opened Invariants
  import opened QueueSafety
  import opened Tasks
  import opened Theorems
  import opened Wakes
  import opened World
  import opened Wrappers

  /** A callback fiber that may be given to another callback: INIT, with nothing left to do and no
      wake-up under way. */
  ghost predicate Reusable(s: World, c: FiberId) {
    c < |s.fibers| && s.fibers[c] == Fiber(INIT, Plain) && !Outstanding(s, c)
  }

  /** A callback that ends while a wake-up for its own fiber is under way. */
  ghost predicate LeavesWake(s: World, step: Step) {
    step.Finish? && RunningQuiet(s, step.w) && s.workers[step.w].pc.cb && Outstanding(s, s.workers[step.w].pc.f)
  }

  // ---------------------------------------------------------------- every callback tidy

  lemma UntidyStep(s: World, step: Step)
    requires Enabled(s, step)
    ensures forall f: FiberId :: f in Apply(s, step).untidy ==>
              f in s.untidy || (LeavesWake(s, step) && f == s.workers[step.w].pc.f)
  {
    hide Apply, Enabled, Outstanding;
    CountFrame(s, step);
    if step.Finish? { FinishUntidy(s, step.w, step.thrown); }
  }

  lemma FinishUntidy(s: World, w: nat, thrown: bool)
    requires Enabled(s, Finish(w, thrown))
    ensures RunningQuiet(s, w)
    ensures var s', f := Apply(s, Finish(w, thrown)), s.workers[w].pc.f;
            && (s.workers[w].pc.cb ==> (f in s'.untidy <==> Outstanding(s, f)))
            && (forall g: FiberId :: g != f ==> (g in s'.untidy <==> g in s.untidy))
            && (!s.workers[w].pc.cb ==> s'.untidy == s.untidy)
  {
    hide Outstanding;
  }

  /** If every callback ends with no wake-up under way for the fiber it ran in, no fiber is ever reset
      with one. */
  lemma {:induction false} TidyCallbacksSuffice(trace: seq<World>, steps: seq<Step>, n: nat)
    requires IsRun(trace, steps) && n < |trace|
    requires forall k :: 0 <= k < n ==> !LeavesWake(trace[k], steps[k])
    ensures trace[n].untidy == {} && trace[n].recycled == {}
  {
    hide Apply, Enabled, LeavesWake, QueueInv, StartInv, CountInv, TableInv, RegInv, FiberInv;
    if n > 0 {
      TidyCallbacksSuffice(trace, steps, n - 1);
      RunInv(trace, steps, n - 1);
      UntidyStep(trace[n - 1], steps[n - 1]);
      NothingRecycled(trace[n - 1], steps[n - 1]);
    }
  }

  /** While none was so reset, the callback fiber a worker keeps is reusable whenever the worker is not
      running it, and nobody else is at it; so `Fiber::reset` never meets a parked fiber. */
  lemma KeptFiberClean(trace: seq<World>, steps: seq<Step>, n: nat, w: nat)
    requires IsRun(trace, steps) && n < |trace| && trace[n].recycled == {} && w < |trace[n].workers|
    requires trace[n].workers[w].cbFiber.Some? && PcFiber(trace[n].workers[w].pc) != trace[n].workers[w].cbFiber
    ensures var s := trace[n];
            var c := s.workers[w].cbFiber.value;
            Reusable(s, c) && forall v: nat :: !AtFiber(s, v, c)
  {
    RunInv(trace, steps, n);
    assert CbFiberOk(trace[n], w);
  }

  // ---------------------------------------------------------------- one callback

  /** Worker w is on its way back from the callback that ended in fiber f. */
  predicate Ended(s: World, w: nat, f: FiberId) {
    && w < |s.workers| && f < |s.fibers| && Dead(s.fibers[f].state)
    && var pc := s.workers[w].pc;
       pc == Leaving(f, true) || pc == Returned(f, true) || pc == Settle(f, true)
  }

  lemma FinishEnds(s: World, w: nat, thrown: bool)
    requires FiberInv(s) && Enabled(s, Finish(w, thrown)) && s.workers[w].pc.cb
    ensures var s', f := Apply(s, Finish(w, thrown)), s.workers[w].pc.f;
            && Ended(s', w, f) && s'.workers[w].pc == Leaving(f, true) && (f in s'.untidy <==> Outstanding(s, f))
  {
    hide Outstanding, DoEnd, PcOk, CbFiberOk, FiberOk, OneWake;
    EndFacts(s, w, thrown);
  }

  /** Its own steps only bring it to the reset. */
  lemma OwnStep(s: World, step: Step, w: nat, f: FiberId)
    requires Ended(s, w, f) && Enabled(s, step) && StepWorker(step) == Some(w) && step != Settled(w)
    ensures Ended(Apply(s, step), w, f) && Apply(s, step).untidy == s.untidy
  {
    hide Outstanding, Context, Eligible, Stopping, FdFree, MutexFree, AddMask, DropMask;
  }

  lemma NotTouched(s: World, step: Step, w: nat, f: FiberId)
    requires FiberInv(s) && Ended(s, w, f) && StepWorker(step) != Some(w)
    ensures !Touches(s, step, f)
    ensures step.Finish? && step.w < |s.workers| && s.workers[step.w].pc.Running? ==> s.workers[step.w].pc.f != f
  {
    hide Outstanding, OneWake, FiberOk, PcOk;
    if StepWorker(step).Some? && StepWorker(step).value < |s.workers| {
      assert CbFiberOk(s, StepWorker(step).value);
    }
  }

  /** Nobody else's steps reach the fiber. */
  lemma OtherStep(s: World, step: Step, w: nat, f: FiberId)
    requires FiberInv(s) && Ended(s, w, f) && Enabled(s, step) && StepWorker(step) != Some(w)
    ensures Ended(Apply(s, step), w, f) && (f in Apply(s, step).untidy <==> f in s.untidy)
  {
    hide Apply, Enabled, FiberInv, Outstanding, Touches, CodeKept, HeldKept;
    NotTouched(s, step, w, f);
    CountFrame(s, step);
    FibersStep(s, step);
    if step.Finish? { FinishUntidy(s, step.w, step.thrown); }
  }

  lemma EndedStep(s: World, step: Step, w: nat, f: FiberId)
    requires FiberInv(s) && Ended(s, w, f) && Enabled(s, step) && step != Settled(w)
    ensures Ended(Apply(s, step), w, f) && (f in Apply(s, step).untidy <==> f in s.untidy)
  {
    hide Apply, Enabled, FiberInv, Ended;
    if StepWorker(step) == Some(w) { OwnStep(s, step, w, f); } else { OtherStep(s, step, w, f); }
  }

  /** The reset keeps the fiber, and leaves its wake-ups as they were. */
  lemma ResetEffect(s: World, w: nat, f: FiberId)
    requires Inv(s) && s.recycled == {} && Ended(s, w, f) && Enabled(s, Settled(w))
    ensures var s' := Apply(s, Settled(w));
            && w < |s'.workers| && s'.workers[w].cbFiber == Some(f)
            && f < |s'.fibers| && s'.fibers[f] == Fiber(INIT, Plain)
            && (Outstanding(s', f) <==> Outstanding(s, f))
            && (f in s'.recycled <==> Outstanding(s, f))
  {
    var s' := Apply(s, Settled(w));
    ResetPlain(s, w, f);
    StepWakes(s, Settled(w));
    hide Apply, Enabled, Inv, OneWake, QueueInv, TableInv, FiberInv, Outstanding;
    assert Outstanding(s', f) <==> WokenAfter(Outstanding(s, f), Same, f);
  }

  lemma ResetPlain(s: World, w: nat, f: FiberId)
    requires FiberInv(s) && s.recycled == {} && Ended(s, w, f) && Enabled(s, Settled(w))
    ensures var s' := Apply(s, Settled(w));
            && w < |s'.workers| && s'.workers[w].cbFiber == Some(f)
            && f < |s'.fibers| && s'.fibers[f] == Fiber(INIT, Plain)
            && ChangeOf(s, Settled(w)) == Same
            && (f in s'.recycled <==> Outstanding(s, f))
  {
    hide Outstanding, MutexFree, OneWake, CbFiberOk, FiberOk;
    assert PcOk(s, w);
  }

  /** Steps joined to a path. */
  ghost predicate IsPath(trace: seq<World>, steps: seq<Step>) {
    && |trace| == |steps| + 1
    && forall i :: 0 <= i < |steps| ==> Enabled(trace[i], steps[i]) && trace[i + 1] == Apply(trace[i], steps[i])
  }

  /** A way on from the end of w's callback to the reset of the fiber it ran in, on which no other fiber
      is reset with a wake-up under way. */
  ghost predicate ToReset(s: World, w: nat, thrown: bool, trace: seq<World>, steps: seq<Step>) {
    && IsPath(trace, steps) && |steps| >= 2 && trace[0] == s
    && steps[0] == Finish(w, thrown) && steps[|steps| - 1] == Settled(w) && trace[|steps| - 1].recycled == {}
    && forall i :: 0 <= i < |steps| - 1 ==> steps[i] != Settled(w)
  }

  lemma NothingRecycledBefore(s: World, step: Step)
    requires Enabled(s, step) && Apply(s, step).recycled == {}
    ensures s.recycled == {}
  {
    hide Apply, Enabled;
    CountFrame(s, step);
  }

  lemma {:induction false} RecycledGrows(trace: seq<World>, steps: seq<Step>, i: nat, j: nat)
    requires IsPath(trace, steps) && i <= j < |trace| && trace[j].recycled == {}
    ensures trace[i].recycled == {}
    decreases j - i
  {
    hide Apply, Enabled;
    if i < j {
      NothingRecycledBefore(trace[j - 1], steps[j - 1]);
      RecycledGrows(trace, steps, i, j - 1);
    }
  }

  /** On the way the fiber stays ended and its worker stays with it. */
  lemma {:induction false} OnTheWay(s: World, w: nat, thrown: bool, trace: seq<World>, steps: seq<Step>, n: nat)
    requires Inv(s) && ToReset(s, w, thrown, trace, steps) && 1 <= n < |steps|
    requires RunningQuiet(s, w) && s.workers[w].pc.cb
    ensures Inv(trace[n]) && trace[n].recycled == {} && Ended(trace[n], w, s.workers[w].pc.f)
    ensures s.workers[w].pc.f in trace[n].untidy <==> Outstanding(s, s.workers[w].pc.f)
  {
    hide Apply, Enabled, Ended, Outstanding, QueueInv, StartInv, CountInv, TableInv, RegInv, FiberInv;
    assert Enabled(trace[0], steps[0]);
    FinishRuns(s, w, thrown);
    RecycledGrows(trace, steps, n, |steps| - 1);
    RecycledGrows(trace, steps, n - 1, |steps| - 1);
    if n == 1 {
      StepInv(s, steps[0]);
      FinishEnds(s, w, thrown);
    } else {
      OnTheWay(s, w, thrown, trace, steps, n - 1);
      StepInv(trace[n - 1], steps[n - 1]);
      EndedStep(trace[n - 1], steps[n - 1], w, s.workers[w].pc.f);
    }
  }

  lemma TidyIsUnowed(s: World, w: nat, f: FiberId)
    requires FiberInv(s) && Ended(s, w, f) && f !in s.untidy
    ensures !Outstanding(s, f)
  {
    assert PcOk(s, w);
  }

  lemma TidyEndIsSafe(s: World, w: nat, thrown: bool, trace: seq<World>, steps: seq<Step>)
    requires Inv(s) && ToReset(s, w, thrown, trace, steps) && RunningQuiet(s, w) && s.workers[w].pc.cb
    requires !Outstanding(s, s.workers[w].pc.f)
    ensures Reusable(trace[|steps|], s.workers[w].pc.f)
  {
    hide Apply, Enabled, Ended, Outstanding, QueueInv, StartInv, CountInv, TableInv, RegInv, FiberInv;
    assert Enabled(trace[0], steps[0]);
    FinishRuns(s, w, thrown);
    var n, f := |steps| - 1, s.workers[w].pc.f;
    OnTheWay(s, w, thrown, trace, steps, n);
    TidyIsUnowed(trace[n], w, f);
    ResetEffect(trace[n], w, f);
  }

  /** The callback's end destroys no wake-up of its own fiber, and the way back none at all. */
  lemma EndKeepsWake(s: World, w: nat, thrown: bool)
    requires Inv(s) && s.recycled == {} && Enabled(s, Finish(w, thrown)) && Outstanding(s, s.workers[w].pc.f)
    ensures Outstanding(Apply(s, Finish(w, thrown)), s.workers[w].pc.f)
  {
    StepWakes(s, Finish(w, thrown));
    EndSpares(s, w, thrown);
    hide Apply, Enabled, Inv, Outstanding, QueueInv, TableInv, FiberInv;
    var s', f := Apply(s, Finish(w, thrown)), s.workers[w].pc.f;
    assert Outstanding(s', f) <==> WokenAfter(Outstanding(s, f), ChangeOf(s, Finish(w, thrown)), f);
  }

  lemma EndSpares(s: World, w: nat, thrown: bool)
    requires NoSelfWake(s) && Enabled(s, Finish(w, thrown))
    ensures var c := ChangeOf(s, Finish(w, thrown)); c == Same || (c.Gone? && c.f != s.workers[w].pc.f)
  {
    hide Outstanding;
  }

  lemma BackStep(s: World, step: Step, w: nat, f: FiberId)
    requires Inv(s) && s.recycled == {} && !s.aborted && Ended(s, w, f)
    requires || (s.workers[w].pc == Leaving(f, true) && step == SwapOut(w))
             || (s.workers[w].pc == Returned(f, true) && step == Release(w))
    ensures Enabled(s, step) && Inv(Apply(s, step)) && Apply(s, step).recycled == {} && !Apply(s, step).aborted
    ensures Ended(Apply(s, step), w, f)
    ensures Apply(s, step).workers[w].pc == if step.SwapOut? then Returned(f, true) else Settle(f, true)
    ensures Outstanding(Apply(s, step), f) <==> Outstanding(s, f)
  {
    BackPlain(s, step, w, f);
    hide Apply, Enabled, Inv, Outstanding, QueueInv, TableInv, FiberInv, Ended;
    CountFrame(s, step);
    StepInv(s, step);
    StepWakes(s, step);
    assert Outstanding(Apply(s, step), f) <==> WokenAfter(Outstanding(s, f), Same, f);
  }

  lemma BackPlain(s: World, step: Step, w: nat, f: FiberId)
    requires !s.aborted && Ended(s, w, f)
    requires || (s.workers[w].pc == Leaving(f, true) && step == SwapOut(w))
             || (s.workers[w].pc == Returned(f, true) && step == Release(w))
    ensures Enabled(s, step) && ChangeOf(s, step) == Same && Ended(Apply(s, step), w, f)
    ensures Apply(s, step).workers[w].pc == if step.SwapOut? then Returned(f, true) else Settle(f, true)
  {
    hide Outstanding;
  }

  lemma ResetReady(s: World, w: nat, f: FiberId)
    requires !s.aborted && Ended(s, w, f) && s.workers[w].pc == Settle(f, true)
    ensures Enabled(s, Settled(w))
  {
  }

  /** The worker alone goes back and resets the fiber, wake-up or not. */
  lemma UntidyEndRecycles(s: World, w: nat, thrown: bool) returns (trace: seq<World>, steps: seq<Step>)
    requires Inv(s) && s.recycled == {} && Enabled(s, Finish(w, thrown)) && s.workers[w].pc.cb
    requires Outstanding(s, s.workers[w].pc.f)
    ensures ToReset(s, w, thrown, trace, steps)
    ensures !Reusable(trace[|steps|], s.workers[w].pc.f) && s.workers[w].pc.f in trace[|steps|].recycled
  {
    hide Apply, Enabled, Ended, Outstanding, QueueInv, StartInv, CountInv, TableInv, RegInv, FiberInv;
    FinishRuns(s, w, thrown);
    var f := s.workers[w].pc.f;
    var s1 := Apply(s, Finish(w, thrown));
    CountFrame(s, Finish(w, thrown));
    StepInv(s, Finish(w, thrown));
    FinishEnds(s, w, thrown);
    EndKeepsWake(s, w, thrown);
    NotAborted(s, Finish(w, thrown));
    BackStep(s1, SwapOut(w), w, f);
    var s2 := Apply(s1, SwapOut(w));
    BackStep(s2, Release(w), w, f);
    var s3 := Apply(s2, Release(w));
    ResetReady(s3, w, f);
    ResetEffect(s3, w, f);
    trace := [s, s1, s2, s3, Apply(s3, Settled(w))];
    steps := [Finish(w, thrown), SwapOut(w), Release(w), Settled(w)];
  }

  lemma NotAborted(s: World, step: Step)
    requires Enabled(s, step)
    ensures !s.aborted
  {
    hide Possible;
  }

  /** When a callback ends, the fiber it ran in is reusable after its worker's reset, whatever the others
      do in between, if and only if the callback leaves no wake-up for that fiber. If it leaves one, its
      worker alone goes on to reset the fiber all the same. */
  lemma CallbackFiberReusable(run: seq<World>, path: seq<Step>, n: nat, w: nat, thrown: bool)
    requires IsRun(run, path) && n < |run| && run[n].recycled == {}
    requires Enabled(run[n], Finish(w, thrown)) && run[n].workers[w].pc.cb
    ensures (forall trace, steps :: ToReset(run[n], w, thrown, trace, steps) ==>
               Reusable(trace[|steps|], run[n].workers[w].pc.f))
            <==> !LeavesWake(run[n], Finish(w, thrown))
  {
    var s := run[n];
    RunInv(run, path, n);
    FinishRuns(s, w, thrown);
    hide Apply, Enabled, Inv, Outstanding, Reusable, ToReset;
    if LeavesWake(s, Finish(w, thrown)) {
      var trace, steps := UntidyEndRecycles(s, w, thrown);
    } else {
      forall trace, steps | ToReset(s, w, thrown, trace, steps) ensures Reusable(trace[|steps|], s.workers[w].pc.f) {
        TidyEndIsSafe(s, w, thrown, trace, steps);
      }
    }
  }

  lemma FinishRuns(s: World, w: nat, thrown: bool)
    requires Enabled(s, Finish(w, thrown))
    ensures RunningQuiet(s, w)
  {
  }
}
