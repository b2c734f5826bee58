/** What holds of every state of every run. */
module Theorems {
  import opened Tasks
  import opened Wrappers
  import opened EventTable
  import opened World
  import opened Invariants
  import opened QueueSafety
  import opened TableSafety
  import opened FiberSafety
  import opened StartSafety
  import Wakes

  lemma InitTable(s: World)
    requires Init(s)
    ensures TableInv(s)
  {
    BitsOfEmpty(s.table.fds, 0);
    forall fd: nat ensures KernelOk(s.table, fd, Todo(s, fd)) {
      assert Todo(s, fd) == {};
    }
  }

  lemma InitFibers(s: World)
    requires Init(s)
    ensures FiberInv(s) && RegInv(s)
  {
    assert forall fd: nat :: Context(s.table, fd) == NO_WAITERS;
  }

  lemma InitInv(s: World)
    requires Init(s)
    ensures Inv(s)
  {
    InitTable(s);
    InitFibers(s);
    NothingCounted(s.workers);
    hide TableInv, FiberInv, RegInv;
  }

  lemma {:induction false} NothingCounted(ws: seq<Worker>)
    requires forall w :: 0 <= w < |ws| ==> ws[w].pc == Top
    ensures CountBusy(ws) == 0 && CountIdle(ws) == 0
  {
    if ws != [] { NothingCounted(ws[1..]); }
  }

  lemma QueueHasOrder(s: World)
    requires QueueInv(s)
    ensures QueueOrdered(s)
  {
  }

  lemma StepInv(s: World, step: Step)
    requires Inv(s) && Enabled(s, step)
    ensures Inv(Apply(s, step))
  {
    hide Enabled, Apply, QueueInv, StartInv, CountInv, TableInv, RegInv, FiberInv;
    QueueStep(s, step);
    QueueHasOrder(s);
    StartStep(s, step);
    CountStep(s, step);
    TableStepKeeps(s, step);
    RegStep(s, step);
    FiberStep(s, step);
  }

  lemma {:induction false} RunInv(trace: seq<World>, steps: seq<Step>, n: nat)
    requires IsRun(trace, steps) && n < |trace|
    ensures Inv(trace[n])
  {
    if n == 0 {
      InitInv(trace[0]);
    } else {
      RunInv(trace, steps, n - 1);
      StepInv(trace[n - 1], steps[n - 1]);
    }
  }

  // ---------------------------------------------------------------- resuming fibers

  /** The worker has dequeued fiber f. */
  predicate TookFiber(pc: Pc, f: FiberId) {
    pc.Taken? && pc.entry.job == FiberJob(f)
  }

  /** As long as no callback fiber was reset with a wake-up under way, the assertion of `swapIn` never
      fails and no fiber is resumed while another worker still has it: from the dequeue that leads to
      a resumption until its worker has settled the state it came back with, no second worker is at
      the fiber, and none dequeues it unless it has ended. */
  lemma ResumedByOneWorker(trace: seq<World>, steps: seq<Step>, n: nat, v: nat, w: nat, f: FiberId)
    requires IsRun(trace, steps) && n < |trace| && trace[n].recycled == {}
    requires v < |trace[n].workers| && w < |trace[n].workers| && v != w && f < |trace[n].fibers|
    requires || PcFiber(trace[n].workers[w].pc) == Some(f)
             || (TookFiber(trace[n].workers[w].pc, f) && !Dead(trace[n].fibers[f].state))
    ensures PcFiber(trace[n].workers[v].pc) != Some(f)
    ensures TookFiber(trace[n].workers[v].pc, f) ==> Dead(trace[n].fibers[f].state)
    ensures trace[n].workers[w].pc.Taken? || trace[n].workers[w].pc.Prepared? ==> trace[n].fibers[f].state != EXEC
    ensures trace[n].workers[w].pc.Running? ==> trace[n].fibers[f].state == EXEC
  {
    RunInv(trace, steps, n);
    var s := trace[n];
    assert PcOk(s, w);
    assert forall u: nat :: u < |s.workers| && FiberHand(s.workers[u].pc, f) ==> Holds(s, InHand(u), f);
    if TookFiber(s.workers[w].pc, f) {
      HandNotExec(s, w, f);
      HandAlone(s, v, w, f);
    }
    hide QueueInv, StartInv, CountInv, TableInv, RegInv, CbFiberOk, FiberOk;
  }

  /** A fiber whose wake-up was queued before it finished switching out cannot be dequeued by
      anyone until its worker has written HOLD, and its state is EXEC for as long. */
  lemma NotDequeuedWhileLeaving(trace: seq<World>, steps: seq<Step>, n: nat, w: nat, v: nat, e: Entry)
    requires IsRun(trace, steps) && n < |trace| && trace[n].recycled == {}
    requires w < |trace[n].workers| && v < |trace[n].workers|
    requires var pc := trace[n].workers[w].pc;
             && (pc.Running? || pc.Leaving? || pc.Returned? || pc.Settle?)
             && e in trace[n].queue && e.job == FiberJob(pc.f)
    ensures var s := trace[n];
            var f := s.workers[w].pc.f;
            f < |s.fibers| && (s.fibers[f].state == EXEC || Dead(s.fibers[f].state))
            && (s.fibers[f].state == EXEC ==> !Eligible(s, v, e) && !FiberHand(s.workers[v].pc, f))
  {
    RunInv(trace, steps, n);
    var s := trace[n];
    assert PcOk(s, w);
    var i :| 0 <= i < |s.queue| && s.queue[i] == e;
    assert QueueHolds(s.queue, e.serial, s.workers[w].pc.f);
    assert Holds(s, InQueue(e.serial), s.workers[w].pc.f);
  }

  /** No fiber ever has two wake-ups under way, wherever they are: in the list, in a slot, in a
      timer, in a callback or in the hands of a worker. */
  lemma AtMostOneWake(trace: seq<World>, steps: seq<Step>, n: nat, f: FiberId, l1: Loc, l2: Loc)
    requires IsRun(trace, steps) && n < |trace| && trace[n].recycled == {}
    requires Holds(trace[n], l1, f) && Holds(trace[n], l2, f)
    ensures l1 == l2
  {
    RunInv(trace, steps, n);
  }

  predicate WaitsAt(s: World, fd: nat, ev: Event, f: FiberId) {
    Context(s.table, fd).At(ev).Full? && Context(s.table, fd).At(ev).job == FiberJob(f)
  }

  ghost predicate NoSlotHolds(s: World, f: FiberId) {
    forall fd: nat, ev: Event :: !WaitsAt(s, fd, ev, f)
  }

  /** The wake-up that resumes a fiber is used up by it: from the moment the fiber runs again no slot
      holds it and nothing else will queue it, so an operation that registered, parked and came
      back has no registration left and may register again. */
  lemma ResumedOwesNothing(trace: seq<World>, steps: seq<Step>, n: nat)
    requires IsRun(trace, steps) && n < |steps| && steps[n].SwapIn? && trace[n].recycled == {}
    ensures var f := trace[n].workers[steps[n].w].pc.f;
            && trace[n + 1].workers[steps[n].w].pc == Running(f, trace[n].workers[steps[n].w].pc.cb, Quiet)
            && !Outstanding(trace[n + 1], f)
            && NoSlotHolds(trace[n + 1], f)
  {
    var s, w := trace[n], steps[n].w;
    var s', f := Apply(s, steps[n]), s.workers[w].pc.f;
    RunInv(trace, steps, n);
    StepWakes(s, steps[n]);
    ResumeUsesWake(s, w);
    assert forall fd: nat, ev: Event :: WaitsAt(s', fd, ev, f) ==> Holds(s', InSlot(fd, ev), f);
  }

  lemma ResumeUsesWake(s: World, w: nat)
    requires FiberInv(s) && Enabled(s, SwapIn(w)) && WakeRel(s, Apply(s, SwapIn(w)), Wakes.ChangeOf(s, SwapIn(w)))
    ensures !Outstanding(Apply(s, SwapIn(w)), s.workers[w].pc.f)
  {
    hide Outstanding;
    var f, c := s.workers[w].pc.f, Wakes.ChangeOf(s, SwapIn(w));
    assert PcOk(s, w);
    assert Outstanding(Apply(s, SwapIn(w)), f) <==> Wakes.WokenAfter(Outstanding(s, f), c, f);
  }

  /** No wake-up is lost: a parked or requeued fiber has one under way, unless `delEvent`,
      `Timer::cancel` or a callback that ended early destroyed it. No fiber is left in EXEC
      without a worker. */
  lemma NoLostWake(trace: seq<World>, steps: seq<Step>, n: nat, f: FiberId)
    requires IsRun(trace, steps) && n < |trace| && trace[n].recycled == {}
    requires f < |trace[n].fibers| && f !in trace[n].abandoned
    ensures trace[n].fibers[f].state == HOLD ==> Outstanding(trace[n], f)
    ensures trace[n].fibers[f].state == READY ==> Outstanding(trace[n], f) || exists w :: AtFiber(trace[n], w, f)
    ensures trace[n].fibers[f].state == EXEC ==> exists w :: AtFiber(trace[n], w, f)
  {
    RunInv(trace, steps, n);
    var s := trace[n];
    assert FiberOk(s, f);
    if w: nat :| AtFiber(s, w, f) {
      assert PcOk(s, w);
      if s.workers[w].pc == Prepared(f, false) { assert Holds(s, InHand(w), f); }
    }
  }

  // ---------------------------------------------------------------- the list

  /** Dispatch loses and duplicates nothing, respects pins, keeps the order of what it skips, and
      dequeues unpinned callbacks in the order they were scheduled. */
  lemma DispatchFaithful(trace: seq<World>, steps: seq<Step>, n: nat)
    requires IsRun(trace, steps) && n < |trace|
    ensures QueueOrdered(trace[n]) && Conserved(trace[n]) && FirstInFirstOut(trace[n])
  {
    RunInv(trace, steps, n);
  }

  /** Every callback starts at most once, on the worker that dequeued it, and each worker starts
      unpinned callbacks in the order they were scheduled. */
  lemma StartsFaithful(trace: seq<World>, steps: seq<Step>, n: nat)
    requires IsRun(trace, steps) && n < |trace|
    ensures StartsOk(trace[n]) && TakenOk(trace[n])
  {
    RunInv(trace, steps, n);
  }

  predicate Started(s: World, serial: nat) {
    exists i :: 0 <= i < |s.starts| && s.starts[i].entry.serial == serial
  }

  /** Every unpinned callback scheduled before e has started. */
  predicate InTurn(s: World, e: Entry) {
    forall k :: 0 <= k < |s.log| && k < e.serial && Free(s.log[k]) ==> Started(s, k)
  }

  /** Another worker has dequeued an unpinned callback scheduled before e and not started it. */
  predicate HoldsEarlier(s: World, v: nat, e: Entry) {
    && v < |s.workers| && Holding(s.workers[v].pc) && s.workers[v].last.Some?
    && Free(s.workers[v].last.value) && s.workers[v].last.value.serial < e.serial
  }

  lemma HeldNotStarted(s: World, v: nat, e: Entry)
    requires QueueInv(s) && StartInv(s) && HoldsEarlier(s, v, e)
    ensures !InTurn(s, e)
  {
    var h := s.workers[v].last.value;
    assert HoldOk(s, v);
    var i :| 0 <= i < |s.taken| && s.taken[i] == Take(h, v);
    assert s.log[h.serial] == h;
    assert !Started(s, h.serial);
  }

  lemma EarlierStarted(s: World, w: nat, e: Entry, k: nat)
    requires QueueInv(s) && StartInv(s) && Take(e, w) in s.taken && Free(e)
    requires k < |s.log| && k < e.serial && Free(s.log[k]) && forall v: nat :: !HoldsEarlier(s, v, e)
    ensures Started(s, k)
  {
    var j :| 0 <= j < |s.taken| && s.taken[j] == Take(e, w);
    assert !InList(s.queue, k);
    var i :| 0 <= i < |s.taken| && s.taken[i].entry.serial == k;
    if s.taken[i] !in s.starts {
      assert StillHeld(s, s.taken[i]);
      assert HoldsEarlier(s, s.taken[i].worker, e);
    }
  }

  /** A worker starts an unpinned callback in its turn, after all that were scheduled before it, if and
      only if no worker still holds an earlier one that it has dequeued and not started. */
  lemma StartInTurn(trace: seq<World>, steps: seq<Step>, n: nat, w: nat)
    requires IsRun(trace, steps) && n < |steps| && steps[n] == SwapIn(w) && trace[n].workers[w].pc.cb
    ensures trace[n].workers[w].last.Some?
    ensures var s, e := trace[n], trace[n].workers[w].last.value;
            && trace[n + 1].starts == s.starts + [Take(e, w)]
            && (Free(e) ==> (InTurn(s, e) <==> forall v: nat :: !HoldsEarlier(s, v, e)))
  {
    RunInv(trace, steps, n);
    var s := trace[n];
    assert HoldOk(s, w);
    hide TableInv, RegInv, FiberInv, CountInv, InTurn;
    var e := s.workers[w].last.value;
    if v: nat :| HoldsEarlier(s, v, e) {
      HeldNotStarted(s, v, e);
    } else if Free(e) {
      forall k | 0 <= k < |s.log| && k < e.serial && Free(s.log[k]) ensures Started(s, k) {
        EarlierStarted(s, w, e, k);
      }
      AllInTurn(s, e);
    }
  }

  lemma AllInTurn(s: World, e: Entry)
    requires forall k :: 0 <= k < |s.log| && k < e.serial && Free(s.log[k]) ==> Started(s, k)
    ensures InTurn(s, e)
  {
  }

  /** Unpinned callbacks started in the order they were scheduled. */
  predicate StartsSorted(s: World) {
    forall i, j ::
      0 <= i < j < |s.starts| && Free(s.starts[i].entry) && Free(s.starts[j].entry)
      ==> s.starts[i].entry.serial < s.starts[j].entry.serial
  }

  lemma {:induction false} SameWorkers(trace: seq<World>, steps: seq<Step>, n: nat)
    requires IsRun(trace, steps) && n < |trace|
    ensures |trace[n].workers| == |trace[0].workers|
  {
    hide Enabled, Apply, Init;
    if n > 0 {
      SameWorkers(trace, steps, n - 1);
      CountFrame(trace[n - 1], steps[n - 1]);
    }
  }

  lemma OneWorkerInOrder(trace: seq<World>, steps: seq<Step>, n: nat)
    requires IsRun(trace, steps) && n < |trace| && |trace[0].workers| == 1
    ensures StartsSorted(trace[n])
  {
    SameWorkers(trace, steps, n);
    StartsFaithful(trace, steps, n);
    var s := trace[n];
    assert forall i :: 0 <= i < |s.starts| ==> s.starts[i].worker == 0;
    hide Enabled, Apply, Init;
  }

  /** The active count is the number of workers holding a dequeued task, the idle count the number
      of workers in their idle fiber. */
  lemma ActiveCountExact(trace: seq<World>, steps: seq<Step>, n: nat)
    requires IsRun(trace, steps) && n < |trace|
    ensures trace[n].active == CountBusy(trace[n].workers) && trace[n].idle == CountIdle(trace[n].workers)
  {
    RunInv(trace, steps, n);
  }

  lemma {:induction false} NoneBusy(ws: seq<Worker>, w: nat)
    requires w < |ws| && CountBusy(ws) == 0
    ensures !Busy(ws[w].pc)
  {
    if w > 0 { NoneBusy(ws[1..], w - 1); }
  }

  /** `stopping()` is true only when every task ever queued has been dequeued and has given
      control back to its worker. */
  lemma StoppingMeansReturned(trace: seq<World>, steps: seq<Step>, n: nat)
    requires IsRun(trace, steps) && n < |trace| && Stopping(trace[n])
    ensures forall k :: 0 <= k < |trace[n].log| ==> InTaken(trace[n].taken, k)
    ensures forall w :: 0 <= w < |trace[n].workers| ==> !Busy(trace[n].workers[w].pc)
  {
    RunInv(trace, steps, n);
    var s := trace[n];
    forall k | 0 <= k < |s.log| ensures InTaken(s.taken, k) {
      assert !InList(s.queue, k);
    }
    forall w | 0 <= w < |s.workers| ensures !Busy(s.workers[w].pc) {
      NoneBusy(s.workers, w);
    }
  }

  // ---------------------------------------------------------------- stopping

  /** A worker is about to put a READY fiber back, its active count already given up. */
  predicate Requeues(s: World, w: nat) {
    && w < |s.workers| && s.workers[w].pc.Settle?
    && s.workers[w].pc.f < |s.fibers| && s.fibers[s.workers[w].pc.f].state == READY
  }

  ghost predicate WorkerRun(s: World, trace: seq<World>, steps: seq<Step>) {
    && |trace| == |steps| + 1 && trace[0] == s
    && forall i :: 0 <= i < |steps| ==>
         StepWorker(steps[i]).Some? && Enabled(trace[i], steps[i]) && trace[i + 1] == Apply(trace[i], steps[i])
  }

  /** Stopping, nothing registered, no timers, and no fiber about to be requeued. */
  ghost predicate Quiescent(s: World) {
    && Stopping(s) && s.table.pending == 0 && s.timers == map[]
    && forall w: nat :: !Requeues(s, w)
  }

  lemma {:induction false} NoBits(fds: seq<FdContext>, fd: nat)
    requires fd < |fds| && Bits(fds) == 0
    ensures fds[fd].events == {}
  {
    if fd > 0 { NoBits(fds[1..], fd - 1); }
  }

  lemma NothingRegistered(s: World)
    requires TableInv(s) && s.table.pending == 0
    ensures forall fd: nat :: Context(s.table, fd).events == {}
    ensures forall w :: 0 <= w < |s.workers| ==> FiringOf(s.workers[w].pc) == Quiet
  {
    forall fd: nat ensures Context(s.table, fd).events == {} {
      if fd < |s.table.fds| { NoBits(s.table.fds, fd); }
    }
    forall w | 0 <= w < |s.workers| ensures FiringOf(s.workers[w].pc) == Quiet {
      if FiringOf(s.workers[w].pc).Firing? { TodoRegistered(s, w); }
    }
  }

  /** All a worker can do once stopped. */
  predicate StoppedStep(step: Step) {
    step.Acquire? || step.ScanEnd? || step.Settled? || step.Idling? || step.LeaveIdle? || step.ExitIdle?
  }

  lemma QuiescentSteps(s: World, step: Step)
    requires Inv(s) && Quiescent(s) && Enabled(s, step) && StepWorker(step).Some?
    ensures StoppedStep(step)
  {
    var w := StepWorker(step).value;
    CountFrame(s, step);
    NoneBusy(s.workers, w);
    NothingRegistered(s);
    hide Inv, Apply, CountEffect;
  }

  /** No step of a stopped worker makes a fiber READY or brings a worker back to settling one. */
  lemma NoNewRequeue(s: World, step: Step, v: nat)
    requires Enabled(s, step) && StoppedStep(step)
    requires Requeues(Apply(s, step), v)
    ensures Requeues(s, v)
  {
    hide Outstanding, MutexFree, Stopping, Eligible, Context, Recycles;
  }

  lemma QuiescentStep(s: World, step: Step)
    requires Inv(s) && Quiescent(s) && Enabled(s, step) && StepWorker(step).Some?
    ensures Quiescent(Apply(s, step))
  {
    QuiescentSteps(s, step);
    assert !Requeues(s, step.w);
    KeepsStopping(s, step);
    hide Inv, Apply, Enabled, Requeues, Stopping;
    var s' := Apply(s, step);
    forall v: nat ensures !Requeues(s', v) {
      if Requeues(s', v) { NoNewRequeue(s, step, v); }
    }
  }

  lemma KeepsStopping(s: World, step: Step)
    requires Enabled(s, step) && StoppedStep(step)
    requires Stopping(s) && !Requeues(s, step.w)
    ensures var s' := Apply(s, step); Stopping(s') && s'.table == s.table && s'.timers == s.timers
  {
    hide Outstanding, MutexFree, Eligible, Context, Recycles;
  }

  lemma {:induction false} QuiescentRun(s: World, trace: seq<World>, steps: seq<Step>, n: nat)
    requires Inv(s) && Quiescent(s) && WorkerRun(s, trace, steps) && n < |trace|
    ensures Inv(trace[n]) && Quiescent(trace[n])
  {
    hide Inv, Quiescent, Enabled, Apply;
    if n > 0 {
      QuiescentRun(s, trace, steps, n - 1);
      StepInv(trace[n - 1], steps[n - 1]);
      QuiescentStep(trace[n - 1], steps[n - 1]);
    }
  }

  lemma ScanEndStep(s: World, v: nat)
    requires QueueInv(s) && !s.aborted && v < |s.workers| && s.workers[v].pc.Scan? && s.queue == []
    ensures Enabled(s, ScanEnd(v)) && Apply(s, ScanEnd(v)) == DoScanEnd(s, v)
    ensures !DoScanEnd(s, v).aborted && MutexFree(DoScanEnd(s, v))
    ensures forall w: nat :: Requeues(s, w) ==> Requeues(DoScanEnd(s, v), w)
  {
  }

  lemma RequeueStep(s: World, w: nat)
    requires !s.aborted && Requeues(s, w) && MutexFree(s)
    ensures Enabled(s, Settled(w)) && Apply(s, Settled(w)).queue != []
  {
  }

  /** The workers can undo a `stopping()` that was read while one of them was requeuing. */
  lemma RequeueUndoesStop(s: World, w: nat) returns (trace: seq<World>, steps: seq<Step>)
    requires Inv(s) && !s.aborted && Stopping(s) && Requeues(s, w)
    ensures WorkerRun(s, trace, steps) && !Stopping(trace[|steps|])
  {
    hide Enabled, Apply, Requeues, DoScanEnd, QueueInv, TableInv, RegInv, CountInv, FiberInv;
    if v: nat :| v < |s.workers| && s.workers[v].pc.Scan? {
      ScanEndStep(s, v);
      var s1 := Apply(s, ScanEnd(v));
      RequeueStep(s1, w);
      trace, steps := [s, s1, Apply(s1, Settled(w))], [ScanEnd(v), Settled(w)];
    } else {
      RequeueStep(s, w);
      trace, steps := [s, Apply(s, Settled(w))], [Settled(w)];
    }
  }

  /** With nothing registered and no timers, `stopping()` stays true whatever the workers do
      exactly when no worker is about to requeue a READY fiber. */
  lemma StopIsFinal(s: World)
    requires Inv(s) && !s.aborted && Stopping(s) && s.table.pending == 0 && s.timers == map[]
    ensures (forall trace, steps :: WorkerRun(s, trace, steps) ==> Stopping(trace[|steps|])) <==>
              forall w: nat :: !Requeues(s, w)
  {
    if w: nat :| Requeues(s, w) {
      var trace, steps := RequeueUndoesStop(s, w);
    } else {
      forall trace, steps | WorkerRun(s, trace, steps) ensures Stopping(trace[|steps|]) {
        QuiescentRun(s, trace, steps, |steps|);
      }
    }
  }

  /** One worker at `pc`, at most one fiber; `log` entries taken in order. */
  function Small(
        pc: Pc, fibers: seq<Fiber>, queue: seq<Entry>, active: int, log: seq<Entry>, taken: seq<Take>,
        stop: bool): World {
    World([Worker(pc, None, false, if taken == [] then None else Some(ONLY), map[], 0)], fibers, queue, active, 0,
          Table([NO_WAITERS, NO_WAITERS], map[], 0), map[], stop, stop, false, log, taken, [], 0, {}, {}, {}, {})
  }

  const ONLY := Entry(0, FiberJob(0), -1, None)

  lemma WindowOpens(s: World, step: Step, s': World)
    requires
      || (s == Small(Top, [], [], 0, [], [], false) && step == Spawn(-1)
          && s' == Small(Top, [Fiber(INIT, Plain)], [ONLY], 0, [ONLY], [], false))
      || (s == Small(Top, [Fiber(INIT, Plain)], [ONLY], 0, [ONLY], [], false) && step == Acquire(0)
          && s' == Small(Scan(0), [Fiber(INIT, Plain)], [ONLY], 0, [ONLY], [], false))
      || (s == Small(Scan(0), [Fiber(INIT, Plain)], [ONLY], 0, [ONLY], [], false) && step == Dequeue(0)
          && s' == Small(Taken(ONLY), [Fiber(INIT, Plain)], [], 1, [ONLY], [Take(ONLY, 0)], false))
      || (s == Small(Taken(ONLY), [Fiber(INIT, Plain)], [], 1, [ONLY], [Take(ONLY, 0)], false) && step == Branch(0)
          && s' == Small(Prepared(0, false), [Fiber(INIT, Plain)], [], 1, [ONLY], [Take(ONLY, 0)], false))
      || (s == Small(Prepared(0, false), [Fiber(INIT, Plain)], [], 1, [ONLY], [Take(ONLY, 0)], false)
            && step == SwapIn(0)
          && s' == Small(Running(0, false, Quiet), [Fiber(EXEC, Plain)], [], 1, [ONLY], [Take(ONLY, 0)], false))
    ensures Enabled(s, step) && Apply(s, step) == s'
  {
  }

  lemma WindowCloses(s: World, step: Step, s': World)
    requires
      || (s == Small(Running(0, false, Quiet), [Fiber(EXEC, Plain)], [], 1, [ONLY], [Take(ONLY, 0)], false)
            && step == YieldToReady(0)
          && s' == Small(Leaving(0, false), [Fiber(READY, Plain)], [], 1, [ONLY], [Take(ONLY, 0)], false))
      || (s == Small(Leaving(0, false), [Fiber(READY, Plain)], [], 1, [ONLY], [Take(ONLY, 0)], false)
            && step == SwapOut(0)
          && s' == Small(Returned(0, false), [Fiber(READY, Plain)], [], 1, [ONLY], [Take(ONLY, 0)], false))
      || (s == Small(Returned(0, false), [Fiber(READY, Plain)], [], 1, [ONLY], [Take(ONLY, 0)], false)
            && step == Release(0)
          && s' == Small(Settle(0, false), [Fiber(READY, Plain)], [], 0, [ONLY], [Take(ONLY, 0)], false))
      || (s == Small(Settle(0, false), [Fiber(READY, Plain)], [], 0, [ONLY], [Take(ONLY, 0)], false) && step == Stop
          && s' == Small(Settle(0, false), [Fiber(READY, Plain)], [], 0, [ONLY], [Take(ONLY, 0)], true))
    ensures Enabled(s, step) && Apply(s, step) == s'
  {
    assert forall fd: nat :: Context(s.table, fd) == NO_WAITERS;
    assert s.workers[0].pc.Running? ==> forall l :: !Holds(s, l, 0);
  }

  /** The window is reachable: one worker, one fiber that yields to READY, then `stop()`. */
  lemma StopWindowReachable() returns (trace: seq<World>, steps: seq<Step>)
    ensures IsRun(trace, steps) && Stopping(trace[|steps|]) && Requeues(trace[|steps|], 0)
    ensures trace[|steps|].table.pending == 0 && trace[|steps|].timers == map[]
  {
    var taken := [Take(ONLY, 0)];
    trace := [
      Small(Top, [], [], 0, [], [], false),
      Small(Top, [Fiber(INIT, Plain)], [ONLY], 0, [ONLY], [], false),
      Small(Scan(0), [Fiber(INIT, Plain)], [ONLY], 0, [ONLY], [], false),
      Small(Taken(ONLY), [Fiber(INIT, Plain)], [], 1, [ONLY], taken, false),
      Small(Prepared(0, false), [Fiber(INIT, Plain)], [], 1, [ONLY], taken, false),
      Small(Running(0, false, Quiet), [Fiber(EXEC, Plain)], [], 1, [ONLY], taken, false),
      Small(Leaving(0, false), [Fiber(READY, Plain)], [], 1, [ONLY], taken, false),
      Small(Returned(0, false), [Fiber(READY, Plain)], [], 1, [ONLY], taken, false),
      Small(Settle(0, false), [Fiber(READY, Plain)], [], 0, [ONLY], taken, false),
      Small(Settle(0, false), [Fiber(READY, Plain)], [], 0, [ONLY], taken, true)];
    steps := [Spawn(-1), Acquire(0), Dequeue(0), Branch(0), SwapIn(0), YieldToReady(0), SwapOut(0), Release(0), Stop];
    hide Enabled, Apply;
    forall i | 0 <= i < |steps| ensures Enabled(trace[i], steps[i]) && trace[i + 1] == Apply(trace[i], steps[i]) {
      if i < 5 { WindowOpens(trace[i], steps[i], trace[i + 1]); }
      else { WindowCloses(trace[i], steps[i], trace[i + 1]); }
    }
  }

  // ---------------------------------------------------------------- events

  /** Each registration is armed in exactly one slot, or became exactly one queue entry, or was
      deleted by `delEvent`; never two of these, never none. */
  lemma RegistrationOutcome(trace: seq<World>, steps: seq<Step>, n: nat, r: nat)
    requires IsRun(trace, steps) && n < |trace| && r < trace[n].regs
    ensures exists l :: RegAt(trace[n], l, r) && forall l' :: RegAt(trace[n], l', r) ==> l' == l
    ensures forall i, j ::
              (0 <= i < |trace[n].log| && trace[n].log[i].reg == Some(r)
               && 0 <= j < |trace[n].log| && trace[n].log[j].reg == Some(r))
              ==> i == j
  {
    RunInv(trace, steps, n);
    var s := trace[n];
    assert Located(s, r);
    var l :| RegAt(s, l, r);
    assert forall l' :: RegAt(s, l', r) ==> l' == l;
    forall i, j | 0 <= i < |s.log| && 0 <= j < |s.log| && s.log[i].reg == Some(r) && s.log[j].reg == Some(r)
      ensures i == j
    {
      assert RegAt(s, LoggedAt(i), r) && RegAt(s, LoggedAt(j), r);
    }
  }

  /** A slot is empty exactly when its bit is clear, the pending count is the number of set bits,
      and on an unlocked descriptor the kernel watches exactly the set bits. */
  lemma TableConsistent(trace: seq<World>, steps: seq<Step>, n: nat, fd: nat)
    requires IsRun(trace, steps) && n < |trace| && FdFree(trace[n], fd)
    ensures trace[n].table.pending == Bits(trace[n].table.fds)
    ensures var ctx := Context(trace[n].table, fd);
            && (forall ev :: ev in ctx.events <==> ctx.At(ev).Full?)
            && (fd in trace[n].table.kernel <==> ctx.events != {})
            && (fd in trace[n].table.kernel ==> trace[n].table.kernel[fd] == ctx.events)
  {
    RunInv(trace, steps, n);
    Wakes.FreeIsEmpty(trace[n], fd);
    var ctx := Context(trace[n].table, fd);
    assert SlotsOk(ctx);
    assert ctx.events - {} == ctx.events;
  }

  /** The kernel never refuses for want or excess of the descriptor: ADD is issued only for absent
      ones, MOD and DEL only for present ones. */
  lemma KernelNeverRefuses(trace: seq<World>, steps: seq<Step>, n: nat, fd: nat, ev: Event, gone: set<Event>)
    requires IsRun(trace, steps) && n < |trace| && FdFree(trace[n], fd)
    ensures AddMask(trace[n].table, fd, ev).Some?
    ensures gone != {} && gone <= Context(trace[n].table, fd).events ==> DropMask(trace[n].table, fd, gone).Some?
  {
    RunInv(trace, steps, n);
    Wakes.FreeIsEmpty(trace[n], fd);
    AddAccepted(trace[n].table, fd, ev);
    if gone != {} && gone <= Context(trace[n].table, fd).events { DropAccepted(trace[n].table, fd, gone); }
  }

  /** Whoever has begun to trigger a descriptor's events finds each one it still has to trigger registered, with a
      waiter in its slot, whatever the others do meanwhile. */
  lemma TriggersRegistered(trace: seq<World>, steps: seq<Step>, n: nat, w: nat)
    requires IsRun(trace, steps) && n < |trace| && w < |trace[n].workers| && FiringOf(trace[n].workers[w].pc).Firing?
    ensures var Firing(fd, todo) := FiringOf(trace[n].workers[w].pc);
            && fd < |trace[n].table.fds| && todo <= trace[n].table.fds[fd].events
            && trace[n].table.fds[fd].At(Next(todo)).Full?
  {
    RunInv(trace, steps, n);
    TodoRegistered(trace[n], w);
  }
}
