/** What each step of a run appends to the list and does to the state of a fiber, and what destroys a
    wake-up, in terms of the step alone. */
module Transitions {
  import opened Tasks
  import opened Wrappers
  import opened EventTable
  import opened World
  import opened Invariants
  import opened QueueSafety
  import opened FiberSafety
  import opened Theorems

  // ---------------------------------------------------------------- what is appended

  /** The step appends one entry, with this job and pin. */
  predicate Added(s: World, s': World, job: Job, pin: int) {
    && |s'.log| == |s.log| + 1 && s'.log[..|s.log|] == s.log
    && s'.log[|s.log|].serial == |s.log| && s'.log[|s.log|].job == job && s'.log[|s.log|].pin == pin
    && s'.queue == s.queue + [s'.log[|s.log|]]
  }

  lemma CallsAppend(s: World, step: Step)
    requires Enabled(s, step) && (step.Post? || step.Spawn? || step.WakeSelf?)
    ensures var s' := Apply(s, step);
            && (step.Post? ==> Added(s, s', CbJob(Plain), step.pin))
            && (step.Spawn? ==> Added(s, s', FiberJob(|s.fibers|), step.pin))
            && (step.WakeSelf? ==> RunningQuiet(s, step.w))
            && (step.WakeSelf? ==> Added(s, s', FiberJob(s.workers[step.w].pc.f), step.pin))
  {
    hide Outstanding;
  }

  lemma LoopAppends(s: World, step: Step)
    requires Enabled(s, step) && (step.RunWake? || step.Expire? || step.Settled?)
    ensures var s' := Apply(s, step);
            && (step.RunWake? ==> RunningQuiet(s, step.w) && s.fibers[s.workers[step.w].pc.f].code.Wake?)
            && (step.RunWake? ==> Added(s, s', FiberJob(s.fibers[s.workers[step.w].pc.f].code.target), -1))
            && (step.Expire? ==> step.id in s.timers && Added(s, s', CbJob(s.timers[step.id]), -1))
            && (step.Settled? ==> OnFiber(s, step.w) && s.workers[step.w].pc.Settle?)
            && (step.Settled? ==>
                  var f := s.workers[step.w].pc.f;
                  if s.fibers[f].state == READY then Added(s, s', FiberJob(f), -1) else SameList(s, s'))
  {
    hide Outstanding, Recycles;
  }

  lemma TriggerAppends(s: World, w: nat)
    requires Enabled(s, Trigger(w))
    ensures TriggerReady(s, w)
    ensures var fire := FiringOf(s.workers[w].pc);
            var ev := if READ in fire.todo then READ else WRITE;
            && s.table.fds[fire.fd].At(ev).Full?
            && Added(s, Apply(s, Trigger(w)), s.table.fds[fire.fd].At(ev).job, -1)
  {
    hide Outstanding, Cleared;
  }

  /** Exactly these steps append, each one entry: a call of `schedule` appends what it was given with the
      thread it was given; what the scheduler, a timer or an event puts back is unpinned, and is the fiber
      that asked for it, the callback of the timer, or the waiter of the event, READ before WRITE. */
  lemma AppendedBy(trace: seq<World>, steps: seq<Step>, n: nat)
    requires IsRun(trace, steps) && n < |steps|
    ensures var s, s', step := trace[n], trace[n + 1], steps[n];
            match step
            case Post(pin) => Added(s, s', CbJob(Plain), pin)
            case Spawn(pin) => Added(s, s', FiberJob(|s.fibers|), pin)
            case WakeSelf(w, pin) => RunningQuiet(s, w) && Added(s, s', FiberJob(s.workers[w].pc.f), pin)
            case RunWake(w) =>
              && RunningQuiet(s, w) && s.fibers[s.workers[w].pc.f].code.Wake?
              && Added(s, s', FiberJob(s.fibers[s.workers[w].pc.f].code.target), -1)
            case Expire(w, id) => id in s.timers && Added(s, s', CbJob(s.timers[id]), -1)
            case Settled(w) =>
              && OnFiber(s, w) && s.workers[w].pc.Settle?
              && var f := s.workers[w].pc.f;
                 if s.fibers[f].state == READY then Added(s, s', FiberJob(f), -1)
                 else s'.log == s.log && s'.queue == s.queue
            case Trigger(w) =>
              && At(s, w) && FiringOf(s.workers[w].pc).Firing? && FiringOf(s.workers[w].pc).fd < |s.table.fds|
              && var Firing(fd, todo) := FiringOf(s.workers[w].pc);
                 var slot := if READ in todo then s.table.fds[fd].read else s.table.fds[fd].write;
                 slot.Full? && Added(s, s', slot.job, -1)
            case _ => s'.log == s.log && (step.Dequeue? || s'.queue == s.queue)
  {
    hide Enabled, Apply, Init, Added;
    var s, step := trace[n], steps[n];
    if step.Post? || step.Spawn? || step.WakeSelf? { CallsAppend(s, step); }
    else if step.RunWake? || step.Expire? || step.Settled? { LoopAppends(s, step); }
    else if step.Trigger? { TriggerAppends(s, step.w); }
    else { ListKept(s, step); }
  }

  lemma ListKept(s: World, step: Step)
    requires Enabled(s, step) && !Appends(s, step)
    ensures Apply(s, step).log == s.log && (step.Dequeue? || Apply(s, step).queue == s.queue)
  {
    if step.Acquire? || step.Skip? || step.Dequeue? {
      hide Outstanding, Eligible;
    } else {
      hide Enabled, Apply;
      ListFrame(s, step);
    }
  }

  lemma {:induction false} LogGrows(trace: seq<World>, steps: seq<Step>, m: nat, n: nat)
    requires IsRun(trace, steps) && m <= n < |trace|
    ensures trace[m].log <= trace[n].log
  {
    hide Enabled, Apply, Init;
    if m < n {
      LogGrows(trace, steps, m, n - 1);
      AppendedBy(trace, steps, n - 1);
    }
  }

  /** A task scheduled for a thread is dequeued by that thread or not at all; one that the scheduler, a timer
      or an event puts back has no thread of its own. */
  lemma PinHonoured(trace: seq<World>, steps: seq<Step>, k: nat, n: nat, i: nat)
    requires IsRun(trace, steps) && k < |steps| && n < |trace| && i < |trace[n].taken|
    requires trace[n].taken[i].entry.serial == |trace[k].log| < |trace[k + 1].log|
    ensures match steps[k]
            case Post(pin) => trace[n].taken[i].entry.pin == pin && (pin == -1 || trace[n].taken[i].worker == pin)
            case Spawn(pin) => trace[n].taken[i].entry.pin == pin && (pin == -1 || trace[n].taken[i].worker == pin)
            case WakeSelf(_, pin) =>
              trace[n].taken[i].entry.pin == pin && (pin == -1 || trace[n].taken[i].worker == pin)
            case _ => trace[n].taken[i].entry.pin == -1
  {
    hide Enabled, Apply, Init;
    RunInv(trace, steps, n);
    AppendedBy(trace, steps, k);
    if n <= k { LogGrows(trace, steps, n, k); } else { LogGrows(trace, steps, k + 1, n); }
    assert trace[n].taken[i].entry == trace[n].log[|trace[k].log|];
  }

  // ---------------------------------------------------------------- fiber states

  /** Where a step leaves the fiber of its worker. */
  lemma FiberLands(s: World, step: Step)
    requires Enabled(s, step)
    requires step.SwapIn? || step.YieldToReady? || step.Finish? || step.Settled?
    ensures OnFiber(s, step.w) && |Apply(s, step).fibers| == |s.fibers|
    ensures var f := PcFiber(s.workers[step.w].pc).value;
            Apply(s, step).fibers == s.fibers[f := Apply(s, step).fibers[f]]
    ensures var f := PcFiber(s.workers[step.w].pc).value;
            var from, to := s.fibers[f].state, Apply(s, step).fibers[f].state;
            && (step.SwapIn? ==> to == EXEC)
            && (step.YieldToReady? ==> to == READY)
            && (step.Finish? ==> to == if step.thrown then EXCEPT else TERM)
            && (step.Settled? ==>
                  to == if from == READY || (!s.workers[step.w].pc.cb && Dead(from)) then from
                        else if Dead(from) then INIT else HOLD)
  {
    hide Outstanding, Recycles, MutexFree;
  }

  lemma StatesKept(s: World, step: Step)
    requires Enabled(s, step) && !step.SwapIn? && !step.YieldToReady? && !step.Finish? && !step.Settled?
    requires FiberInv(s)
    ensures |s.fibers| <= |Apply(s, step).fibers|
    ensures forall f :: 0 <= f < |s.fibers| ==> Apply(s, step).fibers[f].state == s.fibers[f].state
  {
    hide Apply, Enabled;
    if step.Branch? { BranchStates(s, step.w); }
    else if CodeStep(step) || LoopStep(step) { WorkerStates(s, step); }
    else if TableStep(step) { TableStates(s, step); }
    else { OtherStates(s, step); }
  }

  lemma BranchStates(s: World, w: nat)
    requires Enabled(s, Branch(w)) && FiberInv(s)
    ensures |s.fibers| <= |Apply(s, Branch(w)).fibers|
    ensures forall f :: 0 <= f < |s.fibers| ==> Apply(s, Branch(w)).fibers[f].state == s.fibers[f].state
  {
    hide Outstanding, OneWake, FiberOk, PcOk, Exclusive;
    assert CbFiberOk(s, w);
  }

  lemma WorkerStates(s: World, step: Step)
    requires Enabled(s, step) && (CodeStep(step) || LoopStep(step))
    requires !step.SwapIn? && !step.YieldToReady? && !step.Finish? && !step.Settled? && !step.Branch?
    ensures |s.fibers| <= |Apply(s, step).fibers|
    ensures forall f :: 0 <= f < |s.fibers| ==> Apply(s, step).fibers[f].state == s.fibers[f].state
  {
    hide Outstanding, Context, Eligible, Stopping, FdFree, MutexFree;
  }

  lemma TableStates(s: World, step: Step)
    requires Enabled(s, step) && TableStep(step)
    ensures Apply(s, step).fibers == s.fibers
  {
    hide Outstanding, Context, AddMask, DropMask, Stopping, FdFree, MutexFree, Armed, Cleared, Deleted;
  }

  lemma OtherStates(s: World, step: Step)
    requires Enabled(s, step) && !LoopStep(step) && !CodeStep(step) && !TableStep(step)
    ensures s.fibers <= Apply(s, step).fibers
  {
    hide Outstanding, Context, Eligible, Stopping, FdFree, MutexFree;
  }

  /** As long as no callback fiber was reset with a wake-up under way, a fiber's state changes along these
      edges only, and each edge by one kind of step of the worker that has the fiber: it comes to run from
      INIT, HOLD or READY by `swapIn`; from running it becomes READY by `YieldToReady`, TERM by returning, EXCEPT
      by throwing, HOLD by its worker after it parked; a callback fiber that ended becomes INIT by the reset. */
  lemma FiberEdges(trace: seq<World>, steps: seq<Step>, n: nat, f: FiberId)
    requires IsRun(trace, steps) && n < |steps| && trace[n].recycled == {} && f < |trace[n].fibers|
    ensures f < |trace[n + 1].fibers|
    ensures var from, to, step := trace[n].fibers[f].state, trace[n + 1].fibers[f].state, steps[n];
            from != to ==>
              && StepWorker(step).Some? && AtFiber(trace[n], StepWorker(step).value, f)
              && match to
                 case EXEC => step.SwapIn? && (from == INIT || from == HOLD || from == READY)
                 case READY => step.YieldToReady? && from == EXEC
                 case TERM => step.Finish? && !step.thrown && from == EXEC
                 case EXCEPT => step.Finish? && step.thrown && from == EXEC
                 case HOLD => step.Settled? && from == EXEC
                 case INIT => step.Settled? && (from == TERM || from == EXCEPT) && trace[n].workers[step.w].pc.cb
  {
    var s, step := trace[n], steps[n];
    RunInv(trace, steps, n);
    hide Apply, Enabled, Init, QueueInv, StartInv, CountInv, TableInv, RegInv, Outstanding;
    if step.SwapIn? || step.YieldToReady? || step.Finish? || step.Settled? {
      FiberLands(s, step);
      assert PcOk(s, step.w);
      WorkerAt(s, step);
      hide FiberInv, OneWake;
    } else {
      StatesKept(s, step);
    }
  }

  /** Fibers come into being INIT, one at a time: by a call that schedules a new one, or for a callback on a
      worker that keeps none. */
  lemma NewFibers(s: World, step: Step)
    requires Enabled(s, step)
    ensures var s' := Apply(s, step);
            && |s.fibers| <= |s'.fibers| <= |s.fibers| + 1
            && (|s'.fibers| > |s.fibers| ==> s'.fibers[|s.fibers|].state == INIT)
            && (|s'.fibers| > |s.fibers| <==>
                  || step.Spawn?
                  || (step.Branch? && At(s, step.w) && s.workers[step.w].cbFiber == None && s.workers[step.w].pc.Taken?
                      && s.workers[step.w].pc.entry.job.CbJob?))
  {
    if step.Branch? || step.Spawn? {
      hide Outstanding, MutexFree;
    } else {
      hide Apply, Enabled;
      if TableStep(step) { TableStates(s, step); } else { SameFibers(s, step); }
    }
  }

  lemma SameFibers(s: World, step: Step)
    requires Enabled(s, step) && !step.Branch? && !step.Spawn? && !TableStep(step)
    ensures |Apply(s, step).fibers| == |s.fibers|
  {
    hide Outstanding, Context, Eligible, Stopping, FdFree, MutexFree, Recycles;
  }

  lemma WorkerAt(s: World, step: Step)
    requires Enabled(s, step)
    ensures step.SwapIn? ==> At(s, step.w) && s.workers[step.w].pc.Prepared?
    ensures step.YieldToReady? || step.Finish? ==> At(s, step.w) && s.workers[step.w].pc.Running?
    ensures step.Settled? ==> At(s, step.w) && s.workers[step.w].pc.Settle?
  {
    hide Outstanding;
  }

  // ---------------------------------------------------------------- destroyed wake-ups

  /** The step destroys a wake-up of f: `delEvent` on the slot f waits in, a cancel of the timer that would
      wake it, or the end of a callback that did not get to wake it. */
  ghost predicate Destroys(s: World, step: Step, f: FiberId) {
    match step
    case DelEvent(_, fd, ev) => Context(s.table, fd).At(ev).Full? && Target(Context(s.table, fd).At(ev).job) == Some(f)
    case DropTimer(id) => id in s.timers && s.timers[id] == Wake(f)
    case Finish(w, _) => RunningQuiet(s, w) && s.fibers[s.workers[w].pc.f].code == Wake(f)
    case _ => false
  }

  lemma NothingDestroyed(s: World, step: Step)
    requires Enabled(s, step) && !step.DelEvent? && !step.DropTimer? && !step.Finish?
    ensures Apply(s, step).abandoned <= s.abandoned
  {
    hide Outstanding, Eligible, Stopping, FdFree, MutexFree, AddMask, DropMask, Armed, Cleared, Deleted, Recycles;
  }

  lemma DestroyedBy(s: World, step: Step, f: FiberId)
    requires Enabled(s, step) && f in Apply(s, step).abandoned && f !in s.abandoned
    ensures Destroys(s, step, f)
  {
    if step.DelEvent? || step.DropTimer? || step.Finish? {
      hide Outstanding, FdFree, DropMask, Deleted;
    } else {
      hide Enabled, Apply;
      NothingDestroyed(s, step);
    }
  }

  /** A fiber is on record as abandoned only if some step destroyed a wake-up of it. */
  lemma {:induction false} AbandonedBecause(trace: seq<World>, steps: seq<Step>, n: nat, f: FiberId)
    requires IsRun(trace, steps) && n < |trace| && f in trace[n].abandoned
    ensures exists k :: 0 <= k < n && Destroys(trace[k], steps[k], f)
  {
    hide Enabled, Apply, Destroys;
    if n > 0 {
      if f in trace[n - 1].abandoned {
        AbandonedBecause(trace, steps, n - 1, f);
      } else {
        DestroyedBy(trace[n - 1], steps[n - 1], f);
      }
    }
  }

  // ---------------------------------------------------------------- stopping

  lemma StopFlags(s: World, step: Step)
    requires Enabled(s, step)
    ensures var s' := Apply(s, step);
            if step == Stop then s'.autoStop && s'.stopping else s'.autoStop == s.autoStop && s'.stopping == s.stopping
  {
    hide Outstanding, Eligible, Stopping, FdFree, MutexFree, AddMask, DropMask, Armed, Cleared, Deleted, Recycles;
  }

  /** `stop` was called among the first n steps. */
  predicate StopCalled(steps: seq<Step>, n: nat)
    requires n <= |steps|
  {
    Stop in steps[..n]
  }

  lemma {:induction false} FlagsSet(trace: seq<World>, steps: seq<Step>, n: nat)
    requires IsRun(trace, steps) && n < |trace|
    ensures trace[n].autoStop && trace[n].stopping <==> (trace[0].autoStop && trace[0].stopping) || StopCalled(steps, n)
  {
    hide Enabled, Apply;
    if n > 0 {
      FlagsSet(trace, steps, n - 1);
      StopFlags(trace[n - 1], steps[n - 1]);
      assert steps[..n] == steps[..n - 1] + [steps[n - 1]];
    }
  }

  lemma {:induction false} SomeBusy(ws: seq<Worker>)
    requires forall w :: 0 <= w < |ws| ==> !Busy(ws[w].pc)
    ensures CountBusy(ws) == 0
  {
    if ws != [] { SomeBusy(ws[1..]); }
  }

  /** Started without the stop flags, `stopping()` holds if and only if `stop` was called, every task ever
      queued was dequeued, and no worker still has one. */
  lemma StoppingExactly(trace: seq<World>, steps: seq<Step>, n: nat)
    requires IsRun(trace, steps) && n < |trace| && !(trace[0].autoStop && trace[0].stopping)
    ensures Stopping(trace[n]) <==>
              && StopCalled(steps, n)
              && (forall k :: 0 <= k < |trace[n].log| ==> InTaken(trace[n].taken, k))
              && (forall w :: 0 <= w < |trace[n].workers| ==> !Busy(trace[n].workers[w].pc))
  {
    FlagsSet(trace, steps, n);
    RunInv(trace, steps, n);
    var s := trace[n];
    hide Enabled, Apply, Init, StartInv, TableInv, RegInv, FiberInv;
    if Stopping(s) {
      StoppingMeansReturned(trace, steps, n);
    } else if StopCalled(steps, n) && forall w :: 0 <= w < |s.workers| ==> !Busy(s.workers[w].pc) {
      SomeBusy(s.workers);
      var e := s.queue[0];
      assert InList(s.queue, e.serial);
      assert !InTaken(s.taken, e.serial);
    }
  }
}
