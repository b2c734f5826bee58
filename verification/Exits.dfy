/** When a worker leaves `run`. */
module Exits {
  import opened EventTable
  import opened Invariants
  import opened QueueSafety
  import opened Tasks
  import opened Theorems
  import opened World
  import opened Wrappers

  /** The answers the idle fiber of w has after the step. */
  function AskedAfter(asked: nat, step: Step, w: nat): nat {
    if step == Idling(w, NoTimers) then 1
    else if step == Idling(w, NoPending) then 2
    else if step == Idling(w, GoOn) then 0
    else asked
  }

  /** A step marks the idle fiber of w as ended only by the exit of idle, and takes w out of the loop
      only if it was so marked. */
  predicate ExitEffect(s: World, s': World, step: Step, w: nat) {
    && w < |s.workers| == |s'.workers|
    && s'.workers[w].asked == AskedAfter(s.workers[w].asked, step, w)
    && (s'.workers[w].idleDone <==> s.workers[w].idleDone || step == ExitIdle(w))
    && (s'.workers[w].pc == Exited ==> s.workers[w].pc == Exited || (s.workers[w].idleDone && step == ScanEnd(w)))
  }

  predicate ScanStep(step: Step) {
    step.Acquire? || step.Skip? || step.Dequeue? || step.ScanEnd?
  }

  lemma ScanExit(s: World, step: Step, w: nat)
    requires Enabled(s, step) && ScanStep(step) && w < |s.workers|
    ensures ExitEffect(s, Apply(s, step), step, w)
  {
    hide Outstanding, Context, Eligible, Stopping, FdFree, MutexFree, Target;
  }

  lemma LoopExit(s: World, step: Step, w: nat)
    requires Enabled(s, step) && LoopStep(step) && !ScanStep(step) && w < |s.workers|
    ensures ExitEffect(s, Apply(s, step), step, w)
  {
    hide Outstanding, Context, Eligible, Stopping, FdFree, MutexFree, Target;
  }

  lemma WakeExit(s: World, step: Step, w: nat)
    requires Enabled(s, step) && (step.WakeSelf? || step.SleepSelf? || step.RunWake?) && w < |s.workers|
    ensures ExitEffect(s, Apply(s, step), step, w)
  {
    hide Outstanding, Context, Eligible, Stopping, FdFree, MutexFree, Target;
  }

  lemma SwitchExit(s: World, step: Step, w: nat)
    requires Enabled(s, step) && (step.YieldToHold? || step.YieldToReady? || step.Finish? || step.SwapOut?)
    requires w < |s.workers|
    ensures ExitEffect(s, Apply(s, step), step, w)
  {
    hide Outstanding, Context, Eligible, Stopping, FdFree, MutexFree, Target;
  }

  lemma AddExit(s: World, step: Step, w: nat)
    requires Enabled(s, step) && (step.WaitEvent? || step.WatchEvent? || step.DelEvent?) && w < |s.workers|
    ensures ExitEffect(s, Apply(s, step), step, w)
  {
    hide Outstanding, Context, AddMask, DropMask, Stopping, FdFree, MutexFree, Armed, Deleted, Target;
  }

  lemma FireExit(s: World, step: Step, w: nat)
    requires Enabled(s, step) && (step.Cancel? || step.Deliver? || step.Trigger?) && w < |s.workers|
    ensures ExitEffect(s, Apply(s, step), step, w)
  {
    hide Outstanding, Context, AddMask, DropMask, Stopping, FdFree, MutexFree, Armed, Cleared, Deleted, Target;
  }

  lemma OtherExit(s: World, step: Step, w: nat)
    requires Enabled(s, step) && !LoopStep(step) && !CodeStep(step) && !TableStep(step) && w < |s.workers|
    ensures ExitEffect(s, Apply(s, step), step, w)
  {
    hide Outstanding, Context, Stopping, FdFree, MutexFree, Target, HasReport;
  }

  lemma ExitStep(s: World, step: Step, w: nat)
    requires Enabled(s, step) && w < |s.workers|
    ensures ExitEffect(s, Apply(s, step), step, w)
  {
    hide Enabled, Apply, ExitEffect;
    if ScanStep(step) { ScanExit(s, step, w); }
    else if LoopStep(step) { LoopExit(s, step, w); }
    else if step.WakeSelf? || step.SleepSelf? || step.RunWake? { WakeExit(s, step, w); }
    else if CodeStep(step) { SwitchExit(s, step, w); }
    else if step.WaitEvent? || step.WatchEvent? || step.DelEvent? { AddExit(s, step, w); }
    else if TableStep(step) { FireExit(s, step, w); }
    else { OtherExit(s, step, w); }
  }

  /** The questions of `IOManager::stopping`, and when they are answered yes. */
  lemma Answers(s: World, w: nat)
    ensures Enabled(s, Idling(w, NoTimers)) ==> s.timers == map[]
    ensures Enabled(s, Idling(w, NoPending)) ==> At(s, w) && s.workers[w].asked == 1 && s.table.pending == 0
    ensures Enabled(s, ExitIdle(w)) ==> At(s, w) && s.workers[w].asked == 2 && Stopping(s)
  {
    hide Outstanding, Stopping;
  }

  /** Worker w saw at step k that there was no timer. */
  ghost predicate SawNoTimers(trace: seq<World>, steps: seq<Step>, k: nat, w: nat) {
    k < |steps| && k < |trace| && steps[k] == Idling(w, NoTimers) && trace[k].timers == map[]
  }

  /** Worker w saw at step k that nothing was pending, having seen before that there was no timer. */
  ghost predicate SawNoPending(trace: seq<World>, steps: seq<Step>, k: nat, w: nat) {
    && k < |steps| && k < |trace| && steps[k] == Idling(w, NoPending) && trace[k].table.pending == 0
    && exists i :: 0 <= i < k && SawNoTimers(trace, steps, i, w)
  }

  /** Worker w ended its idle fiber in step k, when `Scheduler::stopping` held, having seen before that
      nothing was pending and before that that there was no timer. */
  ghost predicate StoppedAt(trace: seq<World>, steps: seq<Step>, k: nat, w: nat) {
    && k < |steps| && k < |trace| && steps[k] == ExitIdle(w) && Stopping(trace[k])
    && exists i :: 0 <= i < k && SawNoPending(trace, steps, i, w)
  }

  /** A worker leaves `run` only after its idle fiber has ended, and the idle fiber ends only when the
      three questions of `IOManager::stopping` were answered yes, one after the other. */
  lemma {:induction false} ExitedAfterStopping(trace: seq<World>, steps: seq<Step>, n: nat, w: nat)
    requires IsRun(trace, steps) && n < |trace| && w < |trace[0].workers|
    ensures |trace[n].workers| == |trace[0].workers|
    ensures trace[n].workers[w].asked == 1 ==> exists k :: 0 <= k < n && SawNoTimers(trace, steps, k, w)
    ensures trace[n].workers[w].asked == 2 ==> exists k :: 0 <= k < n && SawNoPending(trace, steps, k, w)
    ensures trace[n].workers[w].pc == Exited ==> trace[n].workers[w].idleDone
    ensures trace[n].workers[w].idleDone ==> exists k :: 0 <= k < n && StoppedAt(trace, steps, k, w)
  {
    hide Enabled, Apply, Stopping, SawNoTimers, SawNoPending, StoppedAt;
    if n > 0 {
      ExitedAfterStopping(trace, steps, n - 1, w);
      ExitStep(trace[n - 1], steps[n - 1], w);
      Answered(trace, steps, n - 1, w);
    }
  }

  /** What the steps of the questions show. */
  lemma Answered(trace: seq<World>, steps: seq<Step>, m: nat, w: nat)
    requires m < |steps| && |trace| == |steps| + 1 && Enabled(trace[m], steps[m]) && At(trace[m], w)
    requires trace[m].workers[w].asked == 1 ==> exists k :: 0 <= k < m && SawNoTimers(trace, steps, k, w)
    requires trace[m].workers[w].asked == 2 ==> exists k :: 0 <= k < m && SawNoPending(trace, steps, k, w)
    ensures steps[m] == Idling(w, NoTimers) ==> SawNoTimers(trace, steps, m, w)
    ensures steps[m] == Idling(w, NoPending) ==> SawNoPending(trace, steps, m, w)
    ensures steps[m] == ExitIdle(w) ==> StoppedAt(trace, steps, m, w)
  {
    hide Enabled, Stopping;
    Answers(trace[m], w);
  }

  // ---------------------------------------------------------------- what is left behind

  predicate OthersExited(s: World, w: nat) {
    forall v :: 0 <= v < |s.workers| && v != w ==> s.workers[v].pc == Exited
  }

  predicate AllExited(s: World) {
    forall v :: 0 <= v < |s.workers| ==> s.workers[v].pc == Exited
  }

  /** The entry is for a thread other than w. */
  predicate Away(e: Entry, w: nat) {
    e.pin != -1 && e.pin != w
  }

  predicate AllAway(q: seq<Entry>, w: nat) {
    forall k :: 0 <= k < |q| ==> Away(q[k], w)
  }

  /** The scan of a worker that is alone steps over other threads' entries only. */
  predicate LoneScan(s: World, w: nat) {
    w < |s.workers| && s.workers[w].pc.Scan? && OthersExited(s, w) ==>
      forall k :: 0 <= k < s.workers[w].pc.i && k < |s.queue| ==> Away(s.queue[k], w)
  }

  /** Nobody runs a fiber while a lone worker scans. */
  lemma NobodyRuns(s: World, w: nat, f: FiberId)
    requires FiberInv(s) && w < |s.workers| && s.workers[w].pc.Scan? && OthersExited(s, w) && f < |s.fibers|
    ensures s.fibers[f].state != EXEC
  {
    hide OneWake, PcOk, CbFiberOk, Exclusive;
    assert FiberOk(s, f);
    assert forall v: nat :: !AtFiber(s, v, f);
  }

  lemma LoneSkip(s: World, w: nat)
    requires FiberInv(s) && LoneScan(s, w) && Enabled(s, Skip(w))
    ensures LoneScan(Apply(s, Skip(w)), w)
  {
    hide FiberInv, Outstanding;
    var s', e := Apply(s, Skip(w)), s.queue[s.workers[w].pc.i];
    assert forall v :: 0 <= v < |s.workers| && v != w ==> s'.workers[v] == s.workers[v];
    if OthersExited(s', w) {
      assert OthersExited(s, w);
      if e.job.FiberJob? && e.job.fiber < |s.fibers| { NobodyRuns(s, w, e.job.fiber); }
    }
  }

  /** A scan already under way before a step that leaves the list and the other workers' exits alone. */
  lemma LoneFrame(s: World, s': World, step: Step, w: nat)
    requires LoneScan(s, w) && w < |s.workers| == |s'.workers| && ScansOk(s)
    requires s'.workers[w].pc.Scan? ==> s'.workers[w].pc == s.workers[w].pc && s'.queue == s.queue
    requires forall v :: 0 <= v < |s.workers| ==> ExitEffect(s, s', step, v)
    requires step.ScanEnd? ==> step.w < |s.workers| && s.workers[step.w].pc.Scan?
    ensures LoneScan(s', w)
  {
    if s'.workers[w].pc.Scan? && OthersExited(s', w) {
      forall v | 0 <= v < |s.workers| && v != w ensures s.workers[v].pc == Exited {
        assert ExitEffect(s, s', step, v);
      }
    }
  }

  lemma SkipPc(s: World, w: nat, v: nat)
    requires Enabled(s, Skip(w)) && v < |s.workers| && v != w && ScansOk(s)
    ensures At(s, w) && !s.workers[v].pc.Scan? && !Apply(s, Skip(w)).workers[v].pc.Scan?
  {
    hide Outstanding, Eligible;
  }

  lemma ScanBegins(s: World, step: Step, v: nat)
    requires Enabled(s, step) && (step.Acquire? || step.Dequeue?) && v < |s.workers| && ScansOk(s)
    ensures var s' := Apply(s, step);
            v < |s'.workers| && (s'.workers[v].pc.Scan? ==> s'.workers[v].pc.i == 0)
  {
    hide Outstanding, Eligible;
  }

  lemma ScanEndScans(s: World, step: Step)
    requires Enabled(s, step) && step.ScanEnd?
    ensures At(s, step.w) && s.workers[step.w].pc.Scan?
  {
    hide Outstanding;
  }

  lemma LoneStep(s: World, step: Step, v: nat)
    requires Inv(s) && s.recycled == {} && v < |s.workers| && LoneScan(s, v) && Enabled(s, step)
    ensures LoneScan(Apply(s, step), v)
  {
    hide Enabled, Apply, ExitEffect, QueueOrdered, Conserved, FirstInFirstOut, StartInv, CountInv, TableInv, RegInv;
    hide FiberInv;
    var s' := Apply(s, step);
    if step.Skip? {
      if step.w == v { LoneSkip(s, v); } else { SkipPc(s, step.w, v); }
    } else if step.Acquire? || step.Dequeue? {
      ScanBegins(s, step, v);
    } else {
      ListFrame(s, step);
      forall u | 0 <= u < |s.workers| ensures ExitEffect(s, s', step, u) { ExitStep(s, step, u); }
      if step.ScanEnd? { ScanEndScans(s, step); }
      LoneFrame(s, s', step, v);
    }
  }

  lemma {:induction false} LoneScans(trace: seq<World>, steps: seq<Step>, n: nat, w: nat)
    requires IsRun(trace, steps) && n < |trace| && trace[n].recycled == {} && w < |trace[0].workers|
    ensures |trace[n].workers| == |trace[0].workers| && LoneScan(trace[n], w)
  {
    hide Enabled, Apply, LoneScan, Inv;
    if n == 0 {
      NobodyScans(trace[0], w);
    } else {
      CountFrame(trace[n - 1], steps[n - 1]);
      RunInv(trace, steps, n - 1);
      LoneScans(trace, steps, n - 1, w);
      LoneStep(trace[n - 1], steps[n - 1], w);
    }
  }

  lemma NobodyScans(s: World, w: nat)
    requires Init(s)
    ensures LoneScan(s, w)
  {
  }

  lemma LastOut(s: World, w: nat)
    requires LoneScan(s, w) && Enabled(s, ScanEnd(w)) && AllExited(Apply(s, ScanEnd(w)))
    ensures Apply(s, ScanEnd(w)).queue == s.queue && AllAway(s.queue, w)
  {
    hide Outstanding;
    var s' := Apply(s, ScanEnd(w));
    assert forall v :: 0 <= v < |s.workers| && v != w ==> s'.workers[v] == s.workers[v];
    assert OthersExited(s, w);
  }

  lemma ExitWorker(trace: seq<World>, steps: seq<Step>, n: nat, w: nat)
    requires IsRun(trace, steps) && n < |steps| && steps[n] == ScanEnd(w)
    ensures w < |trace[0].workers|
  {
    ScanEndScans(trace[n], steps[n]);
    ExitedAfterStopping(trace, steps, n, 0);
  }

  /** All a world without workers can do. */
  lemma AfterExitStep(s: World, step: Step)
    requires AllExited(s) && Enabled(s, step)
    ensures var s' := Apply(s, step);
            AllExited(s') && s.queue <= s'.queue && (s'.queue == s.queue || step.Spawn? || step.Post?)
  {
    hide Outstanding;
  }

  /** Once every worker has left, the list only grows, and only by what is posted. */
  lemma {:induction false} ListStays(trace: seq<World>, steps: seq<Step>, m: nat, n: nat)
    requires IsRun(trace, steps) && m <= n < |trace| && AllExited(trace[m])
    ensures AllExited(trace[n]) && trace[m].queue <= trace[n].queue
    ensures (forall k :: m <= k < n ==> !steps[k].Spawn? && !steps[k].Post?) ==> trace[n].queue == trace[m].queue
  {
    hide Enabled, Apply, Inv;
    if m < n {
      ListStays(trace, steps, m, n - 1);
      AfterExitStep(trace[n - 1], steps[n - 1]);
    }
  }

  /** Once the last worker has left and nothing was posted since, every entry still listed is for a
      thread other than that worker; whatever is posted later comes behind these. */
  lemma OnlyForeignLeft(trace: seq<World>, steps: seq<Step>, n: nat, w: nat, m: nat)
    requires IsRun(trace, steps) && n < m < |trace| && trace[n].recycled == {}
    requires steps[n] == ScanEnd(w) && AllExited(trace[n + 1])
    ensures AllAway(trace[n + 1].queue, w) && trace[n + 1].queue <= trace[m].queue
    ensures (forall k :: n < k < m ==> !steps[k].Spawn? && !steps[k].Post?) ==> AllAway(trace[m].queue, w)
  {
    ExitWorker(trace, steps, n, w);
    LoneScans(trace, steps, n, w);
    LastOut(trace[n], w);
    ListStays(trace, steps, n + 1, m);
    hide Enabled, Apply, LoneScan, AllAway;
  }
}
