/** Every step keeps the fiber part of the invariant. */
module FiberSafety {
  import opened Tasks
  import opened Wrappers
  import opened EventTable
  import opened World
  import opened Invariants
  import opened QueueSafety
  import opened Wakes

  /** The effect of a step on wake-ups, as the rest of the proof uses it. */
  ghost predicate WakeRel(s: World, s': World, c: Change) {
    forall f: FiberId :: Outstanding(s', f) <==> WokenAfter(Outstanding(s, f), c, f)
  }

  lemma StepWakes(s: World, step: Step)
    requires QueueOrdered(s) && TableInv(s) && FiberInv(s) && Enabled(s, step)
    ensures OneWake(Apply(s, step))
    ensures WakeRel(s, Apply(s, step), ChangeOf(s, step))
  {
    var s', c := Apply(s, step), ChangeOf(s, step);
    StepDelta(s, step);
    FirstWake(s, step);
    OneWakeAfter(s, s', c);
    forall f: FiberId ensures Outstanding(s', f) <==> WokenAfter(Outstanding(s, f), c, f) {
      OutstandingAfter(s, s', c, f);
    }
  }

  lemma SpawnGrows(s: World, pin: int)
    requires Enabled(s, Spawn(pin))
    ensures |Apply(s, Spawn(pin)).fibers| == |s.fibers| + 1
  {
    hide MutexFree;
  }

  /** A step makes a wake-up only for a fiber that has none. */
  lemma FirstWake(s: World, step: Step)
    requires FiberInv(s) && Enabled(s, step)
    ensures ChangeOf(s, step).Made? ==>
              !Outstanding(s, ChangeOf(s, step).f) && ChangeOf(s, step).f < |Apply(s, step).fibers|
    ensures |s.fibers| <= |Apply(s, step).fibers|
  {
    hide Apply, Outstanding, Context, AddMask, DropMask, Eligible, Stopping, FdFree, MutexFree, FiberOk, CbFiberOk;
    hide Exclusive;
    FibersStep(s, step);
    if step.Settled? { assert PcOk(s, step.w); }
    if step.Spawn? { NewFiberUnowed(s); SpawnGrows(s, step.pin); }
  }

  lemma NewFiberUnowed(s: World)
    requires OneWake(s)
    ensures !Outstanding(s, |s.fibers|)
  {
  }

  /** All but the wake-up counting. */
  ghost predicate FiberCore(s: World) {
    && Exclusive(s)
    && (forall w :: 0 <= w < |s.workers| ==> PcOk(s, w))
    && (forall w :: 0 <= w < |s.workers| ==> CbFiberOk(s, w))
    && (forall f :: 0 <= f < |s.fibers| ==> FiberOk(s, f))
  }

  // ---------------------------------------------------------------- frame

  /** Worker w moves from pc to pc', at most fiber x changes, and wake-ups change by c. The clauses
      list what a step may do without disturbing any other worker. */
  ghost predicate Local(s: World, s': World, w: nat, x: nat, c: Change) {
    && w < |s.workers| == |s'.workers| && |s.fibers| <= |s'.fibers|
    && (forall g: FiberId :: g in s.untidy && g != x ==> g in s'.untidy)
    && (forall v :: 0 <= v < |s.workers| && v != w ==> s'.workers[v] == s.workers[v])
    && (forall f :: 0 <= f < |s.fibers| && f != x ==> s'.fibers[f] == s.fibers[f])
    && var pc, pc' := s.workers[w].pc, s'.workers[w].pc;
    && (x >= |s.fibers| || PcFiber(pc) == Some(x) || s.workers[w].cbFiber == Some(x))
    // a newly dequeued fiber is not running
    && (forall f: FiberId :: FiberHand(pc', f) && !FiberHand(pc, f) ==> f < |s.fibers| && s.fibers[f].state != EXEC)
    // a wake-up is made for the worker's own fiber or a new one
    && (c.Made? ==> c.f >= |s.fibers| || PcFiber(pc) == Some(c.f))
    // a wake-up is used up, recorded as lost, or was for a dead fiber
    && (c.Gone? ==> c.f in s'.abandoned || c.f == x || (c.f < |s.fibers| && Dead(s.fibers[c.f].state)))
    && (forall f: FiberId :: f in s.abandoned ==> f in s'.abandoned || PcFiber(pc) == Some(f))
    // the worker goes to its own fiber, its dequeued one, its callback fiber or a new one
    && (PcFiber(pc').Some? ==>
          var g := PcFiber(pc').value;
          && g < |s'.fibers|
          && (PcFiber(pc) == Some(g) || g >= |s.fibers| || s.workers[w].cbFiber == Some(g)
              || (FiberHand(pc, g) && !Dead(s.fibers[g].state))))
    && (s'.workers[w].cbFiber.Some? ==>
          s'.workers[w].cbFiber == s.workers[w].cbFiber || s'.workers[w].cbFiber.value >= |s.fibers|)
    // it leaves its fiber only once the fiber's state is settled
    && (PcFiber(pc).Some? && PcFiber(pc') != PcFiber(pc) ==>
          && pc.f < |s.fibers|
          && (pc.f == x || Dead(s.fibers[pc.f].state) || (s.fibers[pc.f].state == READY && c.Made? && c.f == pc.f)))
  }

  /** A worker about to resume a fiber has it to itself. */
  lemma HandAlone(s: World, v: nat, w: nat, g: FiberId)
    requires FiberInv(s) && v < |s.workers| && w < |s.workers| && v != w
    requires FiberHand(s.workers[w].pc, g) && g < |s.fibers| && !Dead(s.fibers[g].state)
    ensures PcFiber(s.workers[v].pc) != Some(g) && s.workers[v].cbFiber != Some(g)
  {
    assert Holds(s, InHand(w), g);
    assert PcOk(s, v);
    assert CbFiberOk(s, v);
    if s.workers[v].pc == Prepared(g, false) { assert Holds(s, InHand(v), g); }
  }

  lemma LocalExclusive(s: World, s': World, w: nat, x: nat, c: Change)
    requires FiberInv(s) && Local(s, s', w, x, c)
    ensures Exclusive(s')
  {
    forall v | 0 <= v < |s.workers| && v != w && PcFiber(s'.workers[w].pc).Some?
      ensures PcFiber(s'.workers[w].pc) != PcFiber(s.workers[v].pc)
    {
      var g := PcFiber(s'.workers[w].pc).value;
      assert CbFiberOk(s, w);
      if FiberHand(s.workers[w].pc, g) && g < |s.fibers| && !Dead(s.fibers[g].state) { HandAlone(s, v, w, g); }
    }
  }

  lemma LocalPcOk(s: World, s': World, w: nat, x: nat, c: Change, v: nat)
    requires FiberInv(s) && Local(s, s', w, x, c) && WakeRel(s, s', c) && v < |s.workers| && v != w
    ensures PcOk(s', v)
  {
    assert PcOk(s, v);
    var pc := s.workers[v].pc;
    if PcFiber(pc).Some? {
      var f := pc.f;
      assert CbFiberOk(s, w);
      assert f != x;
      assert Outstanding(s', f) <==> WokenAfter(Outstanding(s, f), c, f);
      if s.fibers[f].state == EXEC {
        forall u | 0 <= u < |s'.workers| ensures !FiberHand(s'.workers[u].pc, f) {
          assert !FiberHand(s.workers[u].pc, f);
        }
      }
    }
  }

  lemma LocalCbFiberOk(s: World, s': World, w: nat, x: nat, c: Change, v: nat)
    requires FiberInv(s) && Local(s, s', w, x, c) && WakeRel(s, s', c) && v < |s.workers| && v != w
    ensures CbFiberOk(s', v)
  {
    assert CbFiberOk(s, v);
    if s.workers[v].cbFiber.Some? {
      var b := s.workers[v].cbFiber.value;
      assert CbFiberOk(s, w);
      assert Outstanding(s', b) <==> WokenAfter(Outstanding(s, b), c, b);
      if FiberHand(s.workers[w].pc, b) && !Dead(s.fibers[b].state) { HandAlone(s, v, w, b); }
    }
  }

  lemma LocalFiberOk(s: World, s': World, w: nat, x: nat, c: Change, f: nat)
    requires FiberInv(s) && Local(s, s', w, x, c) && WakeRel(s, s', c) && f < |s.fibers| && f != x
    ensures FiberOk(s', f)
  {
    assert FiberOk(s, f);
    assert Outstanding(s', f) <==> WokenAfter(Outstanding(s, f), c, f);
    if v :| AtFiber(s, v, f) {
      if v != w || PcFiber(s'.workers[w].pc) == Some(f) { assert AtFiber(s', v, f); }
    } else {
      assert !AtFiber(s, w, f);
    }
  }

  /** A local step keeps the invariant if it keeps it at its own worker and fibers. */
  lemma LocalCore(s: World, s': World, w: nat, x: nat, c: Change)
    requires FiberInv(s) && Local(s, s', w, x, c) && WakeRel(s, s', c)
    requires PcOk(s', w) && CbFiberOk(s', w)
    requires forall f :: 0 <= f < |s'.fibers| && (f == x || f >= |s.fibers|) ==> FiberOk(s', f)
    ensures FiberCore(s')
  {
    LocalExclusive(s, s', w, x, c);
    forall v | 0 <= v < |s'.workers| ensures PcOk(s', v) && CbFiberOk(s', v) {
      if v != w { LocalPcOk(s, s', w, x, c, v); LocalCbFiberOk(s, s', w, x, c, v); }
    }
    forall f | 0 <= f < |s'.fibers| ensures FiberOk(s', f) {
      if f != x && f < |s.fibers| { LocalFiberOk(s, s', w, x, c, f); }
    }
  }

  // ---------------------------------------------------------------- the loop of run

  ghost predicate Ready(s: World, step: Step) {
    FiberInv(s) && Enabled(s, step) && WakeRel(s, Apply(s, step), ChangeOf(s, step))
  }

  /** A worker that neither reaches nor leaves a fiber. */
  lemma PcOnlyCore(s: World, s': World, w: nat, pc': Pc)
    requires FiberInv(s) && WakeRel(s, s', Same) && w < |s.workers|
    requires |s'.workers| == |s.workers| && s'.workers == s.workers[w := s'.workers[w]] && s'.fibers == s.fibers
    requires s'.abandoned == s.abandoned && s'.untidy == s.untidy
    requires s'.workers[w].pc == pc' && s'.workers[w].cbFiber == s.workers[w].cbFiber
    requires PcFiber(s.workers[w].pc) == None == PcFiber(pc') && !pc'.Taken?
    ensures FiberCore(s')
  {
    assert CbFiberOk(s, w);
    LocalCore(s, s', w, |s.fibers|, Same);
  }

  lemma LoopCore(s: World, step: Step)
    requires Ready(s, step)
    requires || step.Acquire? || step.Skip? || step.ScanEnd? || step.LeaveIdle? || step.ExitIdle?
             || step.Idling? || step.Fail?
    ensures FiberCore(Apply(s, step))
  {
    hide FiberInv, FiberCore, WakeRel, Stopping, MutexFree, Eligible;
    PcOnlyCore(s, Apply(s, step), step.w, Apply(s, step).workers[step.w].pc);
  }

  lemma DequeueCore(s: World, w: nat)
    requires Ready(s, Dequeue(w)) && QueueOrdered(s)
    ensures FiberCore(Apply(s, Dequeue(w)))
  {
    hide Context, AddMask, DropMask, Stopping, FdFree, MutexFree, Armed, Cleared, Deleted;
    var s', c := Apply(s, Dequeue(w)), ChangeOf(s, Dequeue(w));
    assert CbFiberOk(s, w);
    var e := s.queue[s.workers[w].pc.i];
    forall f: FiberId | FiberHand(s'.workers[w].pc, f) ensures f < |s.fibers| {
      assert QueueHolds(s.queue, e.serial, f);
      assert Holds(s, InQueue(e.serial), f);
    }
    LocalCore(s, s', w, |s.fibers|, c);
  }

  /** A dequeued fiber is not running: this is why the scan skips EXEC fibers. */
  lemma HandNotExec(s: World, w: nat, f: FiberId)
    requires FiberInv(s) && w < |s.workers| && FiberHand(s.workers[w].pc, f) && f < |s.fibers|
    ensures s.fibers[f].state != EXEC
  {
    forall v: nat | AtFiber(s, v, f) && s.fibers[f].state == EXEC ensures NoHand(s, f) {
      assert PcOk(s, v);
    }
    assert FiberOk(s, f);
  }

  lemma BranchFiberCore(s: World, w: nat, f: FiberId)
    requires FiberInv(s) && At(s, w) && s.workers[w].pc.Taken? && s.workers[w].pc.entry.job == FiberJob(f)
    requires f < |s.fibers|
    requires WakeRel(s, DoBranchFiber(s, w, f), if Dead(s.fibers[f].state) then Gone(InHand(w), f) else Same)
    ensures FiberCore(DoBranchFiber(s, w, f))
  {
    var s', c := DoBranchFiber(s, w, f), if Dead(s.fibers[f].state) then Gone(InHand(w), f) else Same;
    assert CbFiberOk(s, w);
    assert Holds(s, InHand(w), f);
    assert FiberHand(s.workers[w].pc, f);
    HandNotExec(s, w, f);
    LocalCore(s, s', w, |s.fibers|, c);
  }

  lemma BranchCbCore(s: World, w: nat, code: Code)
    requires FiberInv(s) && At(s, w) && s.workers[w].pc.Taken? && s.workers[w].pc.entry.job == CbJob(code)
    requires s.workers[w].cbFiber.Some? ==> s.workers[w].cbFiber.value < |s.fibers|
    requires var b := if s.workers[w].cbFiber.Some? then s.workers[w].cbFiber.value else |s.fibers|;
             WakeRel(s, DoBranchCb(s, w, code), MovedIf(CodeTarget(code), InHand(w), InFiber(b)))
    ensures FiberCore(DoBranchCb(s, w, code))
  {
    var b := if s.workers[w].cbFiber.Some? then s.workers[w].cbFiber.value else |s.fibers|;
    var s', c := DoBranchCb(s, w, code), MovedIf(CodeTarget(code), InHand(w), InFiber(b));
    assert CbFiberOk(s, w);
    assert Outstanding(s', b) <==> WokenAfter(Outstanding(s, b), c, b);
    forall v | 0 <= v < |s.workers| && v != w
      ensures s'.workers[v].cbFiber != Some(b) && PcFiber(s'.workers[v].pc) != Some(b)
    {
      assert CbFiberOk(s, v);
    }
    LocalCore(s, s', w, b, c);
  }

  lemma SwapInCore(s: World, w: nat)
    requires Ready(s, SwapIn(w))
    ensures FiberCore(Apply(s, SwapIn(w)))
  {
    hide Context, AddMask, DropMask, Eligible, Stopping, FdFree, MutexFree, Armed, Cleared, Deleted;
    var s', c := Apply(s, SwapIn(w)), ChangeOf(s, SwapIn(w));
    var f := s.workers[w].pc.f;
    assert PcOk(s, w);
    assert CbFiberOk(s, w);
    assert forall v: nat :: v < |s.workers| && FiberHand(s.workers[v].pc, f) ==> Holds(s, InHand(v), f);
    assert s'.workers[w].pc == Running(f, s.workers[w].pc.cb, Quiet);
    assert AtFiber(s', w, f);
    LocalCore(s, s', w, f, c);
  }

  /** The worker goes back to the top with f in its final state. */
  lemma DoneCore(s: World, s': World, w: nat, c: Change)
    requires FiberInv(s) && WakeRel(s, s', c) && w < |s.workers| && s.workers[w].pc.Settle?
    requires s.workers[w].pc.f < |s.fibers|
    requires |s'.workers| == |s.workers| && s'.workers == s.workers[w := s'.workers[w]] && |s'.fibers| == |s.fibers|
    requires s'.abandoned == s.abandoned && s'.untidy == s.untidy
    requires s'.fibers == s.fibers[s.workers[w].pc.f := s'.fibers[s.workers[w].pc.f]]
    requires s'.workers[w].pc == Top
    requires var f, cb := s.workers[w].pc.f, s.workers[w].pc.cb;
             var st, fb' := s.fibers[f].state, s'.fibers[f];
             && s'.workers[w].cbFiber == (if cb && !Dead(st) then None else s.workers[w].cbFiber)
             && (st == READY ==> c.Made? && c.f == f && fb' == s.fibers[f])
             && (Dead(st) && cb ==> !Outstanding(s, f))
             && (Dead(st) ==> c == Same && fb' == if cb then Fiber(INIT, Plain) else s.fibers[f])
             && (st == EXEC ==> c == Same && fb' == s.fibers[f].(state := HOLD))
    ensures FiberCore(s')
  {
    var f := s.workers[w].pc.f;
    assert PcOk(s, w);
    assert CbFiberOk(s, w);
    assert FiberOk(s, f);
    assert Outstanding(s', f) <==> WokenAfter(Outstanding(s, f), c, f);
    if s.workers[w].cbFiber.Some? {
      var b := s.workers[w].cbFiber.value;
      assert Outstanding(s', b) <==> WokenAfter(Outstanding(s, b), c, b);
    }
    LocalCore(s, s', w, f, c);
  }

  lemma SettledCore(s: World, w: nat)
    requires Ready(s, Settled(w)) && !Recycles(s, w)
    ensures FiberCore(Apply(s, Settled(w)))
  {
    hide FiberCore, WakeRel, MutexFree, Outstanding, NoHand, CbFiberOk, FiberOk, OneWake, Exclusive;
    assert PcOk(s, w);
    DoneCore(s, Apply(s, Settled(w)), w, ChangeOf(s, Settled(w)));
  }

  // ---------------------------------------------------------------- the code of a fiber

  /** The worker moves along with its fiber, whose wake-ups stay as they are. */
  lemma AlongCore(s: World, s': World, w: nat)
    requires FiberInv(s) && WakeRel(s, s', Same) && OnFiber(s, w) && |s'.workers| == |s.workers|
    requires |s'.fibers| == |s.fibers|
    requires s'.workers == s.workers[w := s'.workers[w]] && s'.abandoned == s.abandoned && s'.untidy == s.untidy
    requires var pc, pc' := s.workers[w].pc, s'.workers[w].pc;
             && s'.fibers == s.fibers[pc.f := s'.fibers[pc.f]] && s'.fibers[pc.f].code == s.fibers[pc.f].code
             && (pc.Running? || pc.Leaving? || pc.Returned?)
             && PcFiber(pc') == Some(pc.f) && !pc'.Prepared? && !pc'.Running?
             && pc'.cb == pc.cb && s'.workers[w].cbFiber == s.workers[w].cbFiber
             && var st, st' := s.fibers[pc.f].state, s'.fibers[pc.f].state;
                if pc.Running? then (st' == st && Owed(s, pc.f)) || (st' == READY && !Outstanding(s, pc.f))
                else st' == st
    ensures FiberCore(s')
  {
    var f := s.workers[w].pc.f;
    assert PcOk(s, w);
    assert CbFiberOk(s, w);
    assert FiberOk(s, f);
    assert AtFiber(s', w, f);
    assert Outstanding(s', f) <==> Outstanding(s, f);
    assert NoHand(s, f) ==> NoHand(s', f);
    LocalCore(s, s', w, f, Same);
  }

  lemma LeaveCore(s: World, step: Step)
    requires Ready(s, step) && (step.YieldToHold? || step.YieldToReady? || step.SwapOut? || step.Release?)
    ensures FiberCore(Apply(s, step))
  {
    hide FiberInv, FiberCore, WakeRel, Outstanding, MutexFree, Eligible, Stopping, FdFree, Context;
    AlongCore(s, Apply(s, step), step.w);
  }

  /** What is lost when a callback ends without running. */
  function EndChange(s: World, w: nat): Change
    requires RunningQuiet(s, w)
  {
    GoneIf(CodeTarget(s.fibers[s.workers[w].pc.f].code), InFiber(s.workers[w].pc.f))
  }

  lemma EndLocal(s: World, w: nat, thrown: bool)
    requires FiberInv(s) && RunningQuiet(s, w)
    ensures Local(s, DoEnd(s, w, thrown), w, s.workers[w].pc.f, EndChange(s, w))
  {
    hide Outstanding, OneWake, CbFiberOk, FiberOk, PcOk;
  }

  /** The parts of the state after the end of a fiber's code. */
  lemma EndFacts(s: World, w: nat, thrown: bool)
    requires RunningQuiet(s, w)
    ensures var s', pc := DoEnd(s, w, thrown), s.workers[w].pc;
            && s'.workers == s.workers[w := s.workers[w].(pc := Leaving(pc.f, pc.cb))]
            && s'.fibers == s.fibers[pc.f := Fiber(if thrown then EXCEPT else TERM, Plain)]
            && (pc.cb ==> (pc.f in s'.untidy <==> Outstanding(s, pc.f)))
  {
    hide Outstanding;
  }

  lemma EndPc(s: World, w: nat, thrown: bool)
    requires FiberInv(s) && RunningQuiet(s, w) && WakeRel(s, DoEnd(s, w, thrown), EndChange(s, w))
    ensures var s', f := DoEnd(s, w, thrown), s.workers[w].pc.f;
            f < |s'.fibers| && w < |s'.workers| && PcOk(s', w) && FiberOk(s', f)
  {
    hide Outstanding, DoEnd, OneWake, Exclusive, CbFiberOk;
    EndFacts(s, w, thrown);
    var s', f := DoEnd(s, w, thrown), s.workers[w].pc.f;
    assert PcOk(s, w);
    assert Outstanding(s', f) <==> WokenAfter(Outstanding(s, f), EndChange(s, w), f);
  }

  lemma EndCbFiber(s: World, w: nat, thrown: bool)
    requires FiberInv(s) && RunningQuiet(s, w) && WakeRel(s, DoEnd(s, w, thrown), EndChange(s, w))
    ensures w < |DoEnd(s, w, thrown).workers| && CbFiberOk(DoEnd(s, w, thrown), w)
  {
    hide Outstanding, DoEnd, OneWake, Exclusive, FiberOk;
    EndFacts(s, w, thrown);
    assert PcOk(s, w);
    assert CbFiberOk(s, w);
    if s.workers[w].cbFiber.Some? {
      var b := s.workers[w].cbFiber.value;
      assert Outstanding(DoEnd(s, w, thrown), b) <==> WokenAfter(Outstanding(s, b), EndChange(s, w), b);
    }
  }

  lemma EndCore(s: World, w: nat, thrown: bool)
    requires FiberInv(s) && RunningQuiet(s, w) && WakeRel(s, DoEnd(s, w, thrown), EndChange(s, w))
    ensures FiberCore(DoEnd(s, w, thrown))
  {
    hide FiberInv, WakeRel, Local, PcOk, CbFiberOk, FiberOk, EndChange, FiberCore;
    EndLocal(s, w, thrown);
    EndPc(s, w, thrown);
    EndCbFiber(s, w, thrown);
    assert |DoEnd(s, w, thrown).fibers| == |s.fibers|;
    LocalCore(s, DoEnd(s, w, thrown), w, s.workers[w].pc.f, EndChange(s, w));
  }

  lemma FinishCore(s: World, w: nat, thrown: bool)
    requires Ready(s, Finish(w, thrown))
    ensures FiberCore(Apply(s, Finish(w, thrown)))
  {
    hide FiberInv, FiberCore, WakeRel, Outstanding, DoEnd, GoneIf, CodeTarget;
    EndCore(s, w, thrown);
  }

  /** Steps of running or idle code that keep the worker where it is. */
  lemma StayCore(s: World, s': World, w: nat, x: nat, c: Change)
    requires FiberInv(s) && WakeRel(s, s', c) && Local(s, s', w, x, c)
    requires s'.workers[w].cbFiber == s.workers[w].cbFiber
    requires s.workers[w].pc.Running? ==>
              && s'.workers[w].pc.Running? && s'.workers[w].pc.f == s.workers[w].pc.f
              && s'.workers[w].pc.cb == s.workers[w].pc.cb
    requires s.workers[w].pc.Idle? ==> s'.workers[w].pc.Idle?
    requires s.workers[w].pc.Running? || s.workers[w].pc.Idle?
    requires x < |s.fibers| ==> PcFiber(s.workers[w].pc) == Some(x) && s'.fibers[x].state == s.fibers[x].state
    requires |s'.fibers| == |s.fibers|
    ensures FiberCore(s')
  {
    assert PcOk(s, w);
    assert CbFiberOk(s, w);
    if s.workers[w].pc.Running? {
      assert NoHand(s', s.workers[w].pc.f);
      assert AtFiber(s', w, s.workers[w].pc.f);
    }
    if s.workers[w].cbFiber.Some? {
      var b := s.workers[w].cbFiber.value;
      assert Outstanding(s', b) <==> WokenAfter(Outstanding(s, b), c, b);
    }
    if x < |s.fibers| { assert FiberOk(s, x); }
    LocalCore(s, s', w, x, c);
  }

  lemma RunningCore(s: World, step: Step)
    requires Ready(s, step) && (step.WakeSelf? || step.SleepSelf? || step.RunWake?)
    ensures FiberCore(Apply(s, step))
  {
    hide Context, AddMask, DropMask, Eligible, Stopping, FdFree, MutexFree, Armed, Cleared, Deleted;
    assert PcOk(s, step.w);
    StayCore(s, Apply(s, step), step.w, s.workers[step.w].pc.f, ChangeOf(s, step));
  }

  lemma AddCore(s: World, step: Step)
    requires Ready(s, step) && (step.WaitEvent? || step.WatchEvent?)
    ensures FiberCore(Apply(s, step))
  {
    hide Context, AddMask, DropMask, Eligible, Stopping, FdFree, MutexFree, Armed, Cleared, Deleted;
    assert PcOk(s, step.w);
    StayCore(s, Apply(s, step), step.w, s.workers[step.w].pc.f, ChangeOf(s, step));
  }

  lemma IdleCore(s: World, step: Step)
    requires Ready(s, step) && (step.DelEvent? || step.Expire?)
    ensures FiberCore(Apply(s, step))
  {
    hide Context, AddMask, DropMask, Eligible, Stopping, FdFree, MutexFree, Armed, Cleared, Deleted;
    assert PcOk(s, step.w);
    StayCore(s, Apply(s, step), step.w, |s.fibers|, ChangeOf(s, step));
  }

  lemma FiringCore(s: World, step: Step)
    requires Ready(s, step) && (step.Cancel? || step.Deliver?)
    ensures FiberCore(Apply(s, step))
  {
    hide Context, AddMask, DropMask, Eligible, Stopping, FdFree, MutexFree, Armed, Cleared, Deleted, Outstanding;
    hide OneWake, Exclusive, FiberOk;
    assert PcOk(s, step.w);
    StayCore(s, Apply(s, step), step.w, |s.fibers|, Same);
  }

  lemma TriggerCore(s: World, w: nat)
    requires Ready(s, Trigger(w))
    ensures FiberCore(Apply(s, Trigger(w)))
  {
    hide Context, AddMask, DropMask, Eligible, Stopping, FdFree, MutexFree, Armed, Cleared, Deleted, Outstanding;
    hide OneWake, Exclusive, FiberOk, Next;
    assert PcOk(s, w);
    StayCore(s, Apply(s, Trigger(w)), w, |s.fibers|, ChangeOf(s, Trigger(w)));
  }

  // ---------------------------------------------------------------- other threads

  lemma OutsideCore(s: World, s': World, c: Change)
    requires FiberInv(s) && WakeRel(s, s', c) && s'.workers == s.workers
    requires s.abandoned <= s'.abandoned && s'.untidy == s.untidy
    requires |s.fibers| <= |s'.fibers| && s'.fibers[..|s.fibers|] == s.fibers
    requires forall f :: |s.fibers| <= f < |s'.fibers| ==> s'.fibers[f] == Fiber(INIT, Plain)
    requires c.Made? ==> c.f >= |s.fibers|
    requires c.Gone? ==> c.f in s'.abandoned
    ensures FiberCore(s')
  {
    var x := |s.fibers|;
    assert forall f :: 0 <= f < |s.fibers| ==> s'.fibers[f] == s'.fibers[..|s.fibers|][f];
    assert PcOk(s, 0) && CbFiberOk(s, 0);
    var pc := s.workers[0].pc;
    if PcFiber(pc).Some? {
      assert Outstanding(s', pc.f) <==> WokenAfter(Outstanding(s, pc.f), c, pc.f);
      assert NoHand(s, pc.f) ==> NoHand(s', pc.f);
    }
    if s.workers[0].cbFiber.Some? {
      var b := s.workers[0].cbFiber.value;
      assert Outstanding(s', b) <==> WokenAfter(Outstanding(s, b), c, b);
    }
    LocalCore(s, s', 0, x, c);
  }

  lemma OtherThreadCore(s: World, step: Step)
    requires Ready(s, step) && (step.Spawn? || step.Post? || step.PlainTimer? || step.DropTimer? || step.Stop?)
    ensures FiberCore(Apply(s, step))
  {
    hide Context, AddMask, DropMask, Eligible, Stopping, FdFree, MutexFree, Armed, Cleared, Deleted;
    OutsideCore(s, Apply(s, step), ChangeOf(s, step));
  }

  // ---------------------------------------------------------------- all steps

  lemma StepCore(s: World, step: Step)
    requires Ready(s, step) && QueueOrdered(s) && (step.Settled? ==> !Recycles(s, step.w))
    ensures FiberCore(Apply(s, step))
  {
    hide *;
    match step
    case Acquire(_) => LoopCore(s, step);
    case Skip(_) => LoopCore(s, step);
    case ScanEnd(_) => LoopCore(s, step);
    case Idling(_, _) => LoopCore(s, step);
    case Fail(_, _) => LoopCore(s, step);
    case LeaveIdle(_) => LoopCore(s, step);
    case ExitIdle(_) => LoopCore(s, step);
    case Dequeue(w) => DequeueCore(s, w);
    case Branch(w) => BranchCore(s, w);
    case SwapIn(w) => SwapInCore(s, w);
    case Settled(w) => SettledCore(s, w);
    case Finish(w, thrown) => FinishCore(s, w, thrown);
    case YieldToHold(_) => LeaveCore(s, step);
    case YieldToReady(_) => LeaveCore(s, step);
    case SwapOut(_) => LeaveCore(s, step);
    case Release(_) => LeaveCore(s, step);
    case WakeSelf(_, _) => RunningCore(s, step);
    case SleepSelf(_, _) => RunningCore(s, step);
    case RunWake(_) => RunningCore(s, step);
    case WaitEvent(_, _, _) => AddCore(s, step);
    case WatchEvent(_, _, _) => AddCore(s, step);
    case DelEvent(_, _, _) => IdleCore(s, step);
    case Expire(_, _) => IdleCore(s, step);
    case Cancel(_, _, _) => FiringCore(s, step);
    case Deliver(_, _, _) => FiringCore(s, step);
    case Trigger(w) => TriggerCore(s, w);
    case Spawn(_) => OtherThreadCore(s, step);
    case Post(_) => OtherThreadCore(s, step);
    case PlainTimer(_) => OtherThreadCore(s, step);
    case DropTimer(_) => OtherThreadCore(s, step);
    case Stop => OtherThreadCore(s, step);
  }

  lemma BranchCore(s: World, w: nat)
    requires Ready(s, Branch(w))
    ensures FiberCore(Apply(s, Branch(w)))
  {
    hide FiberInv, FiberCore, WakeRel, DoBranchFiber, DoBranchCb, Dead, MovedIf, CodeTarget;
    match s.workers[w].pc.entry.job
    case FiberJob(f) => BranchFiberCore(s, w, f);
    case CbJob(code) => BranchCbCore(s, w, code);
  }

  /** A reset with a wake-up under way is on record, and so is the end of that callback. */
  lemma RecycleRecorded(s: World, step: Step)
    requires Enabled(s, step) && step.Settled? && Recycles(s, step.w)
    ensures s.workers[step.w].pc.f in Apply(s, step).recycled
    ensures FiberInv(s) ==> s.workers[step.w].pc.f in s.untidy
  {
    hide Outstanding, DoSettled, MutexFree, Dead, OneWake, Exclusive, CbFiberOk, FiberOk;
    if FiberInv(s) { assert PcOk(s, step.w); }
  }

  /** While the last callback of every fiber left no wake-up for it, no fiber is reset with one. */
  lemma NothingRecycled(s: World, step: Step)
    requires s.recycled == {} && s.untidy == {} && FiberInv(s) && Enabled(s, step)
    ensures Apply(s, step).recycled == {}
  {
    hide Enabled, Apply, Recycles, FiberInv;
    CountFrame(s, step);
    if step.Settled? {
      if Recycles(s, step.w) { RecycleRecorded(s, step); } else { NotRecycled(s, step.w); }
    }
  }

  lemma NotRecycled(s: World, w: nat)
    requires Enabled(s, Settled(w)) && !Recycles(s, w)
    ensures Apply(s, Settled(w)).recycled == s.recycled
  {
    hide Outstanding, DoSettled, MutexFree, Dead;
  }

  /** The fiber is the one its worker is at, or its callback fiber. */
  predicate Touches(s: World, step: Step, f: FiberId) {
    && StepWorker(step).Some? && StepWorker(step).value < |s.workers|
    && var wk := s.workers[StepWorker(step).value];
       PcFiber(wk.pc) == Some(f) || wk.cbFiber == Some(f)
  }

  predicate CodeKept(s: World, s': World, f: FiberId)
    requires f < |s'.fibers|
  {
    s'.fibers[f].code == Plain || (f < |s.fibers| && s'.fibers[f].code == s.fibers[f].code)
  }

  /** A step changes only a fiber of its own worker, and only the callback branch gives a fiber
      something to do. */
  predicate FibersKept(s: World, s': World, step: Step) {
    && |s.fibers| <= |s'.fibers|
    && (forall f :: 0 <= f < |s.fibers| && !Touches(s, step, f) ==> s'.fibers[f] == s.fibers[f])
    && (!step.Branch? ==> forall f :: 0 <= f < |s'.fibers| ==> CodeKept(s, s', f))
  }

  lemma LoopFibers(s: World, step: Step)
    requires Enabled(s, step) && LoopStep(step)
    ensures FibersKept(s, Apply(s, step), step)
  {
    hide Outstanding, Context, Eligible, Stopping, FdFree, MutexFree, Recycles;
  }

  lemma CodeFibers(s: World, step: Step)
    requires Enabled(s, step) && CodeStep(step)
    ensures FibersKept(s, Apply(s, step), step)
  {
    hide Outstanding, Context, Eligible, Stopping, FdFree, MutexFree;
  }

  lemma TableFibers(s: World, step: Step)
    requires Enabled(s, step) && TableStep(step)
    ensures FibersKept(s, Apply(s, step), step)
  {
    hide Outstanding, Context, AddMask, DropMask, Stopping, FdFree, MutexFree, Armed, Cleared, Deleted;
  }

  lemma OtherFibers(s: World, step: Step)
    requires Enabled(s, step) && !LoopStep(step) && !CodeStep(step) && !TableStep(step)
    ensures FibersKept(s, Apply(s, step), step)
  {
    hide Outstanding, Context, Eligible, Stopping, FdFree, MutexFree;
  }

  lemma FibersStep(s: World, step: Step)
    requires Enabled(s, step)
    ensures FibersKept(s, Apply(s, step), step)
  {
    hide Enabled, Apply, FibersKept;
    if LoopStep(step) { LoopFibers(s, step); }
    else if CodeStep(step) { CodeFibers(s, step); }
    else if TableStep(step) { TableFibers(s, step); }
    else { OtherFibers(s, step); }
  }

  /** The branch gives a callback to a fiber with no wake-up under way, so not one that owes it one. */
  lemma BranchCodes(s: World, w: nat)
    requires NoSelfWake(s) && Enabled(s, Branch(w)) && FiberCore(Apply(s, Branch(w)))
    ensures NoSelfWake(Apply(s, Branch(w)))
  {
    hide Exclusive, CbFiberOk, FiberOk;
    var s' := Apply(s, Branch(w));
    assert PcOk(s', w);
    assert forall f: FiberId :: f < |s'.fibers| && s'.fibers[f].code == Wake(f) ==> Holds(s', InFiber(f), f);
  }

  lemma CodesStep(s: World, step: Step)
    requires NoSelfWake(s) && Enabled(s, step) && FiberCore(Apply(s, step))
    ensures NoSelfWake(Apply(s, step))
  {
    hide Enabled, Apply, FiberCore;
    if step.Branch? {
      BranchCodes(s, step.w);
    } else {
      FibersStep(s, step);
      var s' := Apply(s, step);
      forall f | 0 <= f < |s'.fibers| ensures s'.fibers[f].code != Wake(f) {
        assert CodeKept(s, s', f);
      }
    }
  }

  /** Every step keeps the fiber invariant, unless it resets a callback fiber with a wake-up under way. */
  lemma FiberStep(s: World, step: Step)
    requires QueueOrdered(s) && TableInv(s) && (s.recycled == {} ==> FiberInv(s)) && Enabled(s, step)
    ensures Apply(s, step).recycled == {} ==> FiberInv(Apply(s, step))
  {
    hide Enabled, Apply, Recycles, FiberCore, OneWake, NoSelfWake;
    CountFrame(s, step);
    if Apply(s, step).recycled == {} {
      if step.Settled? && Recycles(s, step.w) { RecycleRecorded(s, step); }
      StepWakes(s, step);
      StepCore(s, step);
      CodesStep(s, step);
      FiberParts(Apply(s, step));
    }
  }

  lemma FiberParts(s: World)
    requires OneWake(s) && FiberCore(s) && NoSelfWake(s)
    ensures FiberInv(s)
  {
  }
}
