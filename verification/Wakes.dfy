/** How each step moves wake-ups: it leaves them all in place, moves one, makes one or destroys one. */
module Wakes {
  import opened Sequences
  import opened Tasks
  import opened Wrappers
  import opened EventTable
  import opened World
  import opened Invariants

  datatype Change =
    | Same
    | Moved(from: Loc, to: Loc, f: FiberId)
    | Made(to: Loc, f: FiberId)
    | Gone(from: Loc, f: FiberId)

  function MovedIf(t: Option<FiberId>, from: Loc, to: Loc): Change {
    if t.Some? then Moved(from, to, t.value) else Same
  }

  function GoneIf(t: Option<FiberId>, from: Loc): Change {
    if t.Some? then Gone(from, t.value) else Same
  }

  ghost function ChangeOf(s: World, step: Step): Change
    requires Enabled(s, step)
  {
    match step
    case Dequeue(w) => var e := s.queue[s.workers[w].pc.i]; MovedIf(Target(e.job), InQueue(e.serial), InHand(w))
    case Branch(w) =>
      (match s.workers[w].pc.entry.job
       case FiberJob(f) => if Dead(s.fibers[f].state) then Gone(InHand(w), f) else Same
       case CbJob(code) => MovedIf(CodeTarget(code), InHand(w),
           InFiber(if s.workers[w].cbFiber.Some? then s.workers[w].cbFiber.value else |s.fibers|)))
    case SwapIn(w) => if s.workers[w].pc.cb then Same else Gone(InHand(w), s.workers[w].pc.f)
    case Finish(w, thrown) => GoneIf(CodeTarget(s.fibers[s.workers[w].pc.f].code), InFiber(s.workers[w].pc.f))
    case Settled(w) =>
      if s.fibers[s.workers[w].pc.f].state == READY then Made(InQueue(|s.log|), s.workers[w].pc.f) else Same
    case Spawn(pin) => Made(InQueue(|s.log|), |s.fibers|)
    case WakeSelf(w, pin) => Made(InQueue(|s.log|), s.workers[w].pc.f)
    case SleepSelf(w, id) => Made(InTimer(id), s.workers[w].pc.f)
    case RunWake(w) => Moved(InFiber(s.workers[w].pc.f), InQueue(|s.log|), s.fibers[s.workers[w].pc.f].code.target)
    case DropTimer(id) => GoneIf(CodeTarget(s.timers[id]), InTimer(id))
    case Expire(w, id) => MovedIf(CodeTarget(s.timers[id]), InTimer(id), InQueue(|s.log|))
    case WaitEvent(w, fd, ev) => Made(InSlot(fd, ev), s.workers[w].pc.f)
    case DelEvent(w, fd, ev) => GoneIf(SlotTarget(Context(s.table, fd).At(ev)), InSlot(fd, ev))
    case Trigger(w) =>
      var fire := FiringOf(s.workers[w].pc);
      MovedIf(SlotTarget(s.table.fds[fire.fd].At(Next(fire.todo))), InSlot(fire.fd, Next(fire.todo)), InQueue(|s.log|))
    case _ => Same
  }

  predicate HoldsAfter(s: World, c: Change, l: Loc, f: FiberId) {
    match c
    case Same => Holds(s, l, f)
    case Moved(a, b, g) => (Holds(s, l, f) && l != a) || (l == b && f == g)
    case Made(b, g) => Holds(s, l, f) || (l == b && f == g)
    case Gone(a, g) => Holds(s, l, f) && l != a
  }

  ghost predicate Delta(s: World, s': World, c: Change) {
    && (forall l, f: FiberId :: Holds(s', l, f) <==> HoldsAfter(s, c, l, f))
    && (c.Moved? ==> Holds(s, c.from, c.f) && c.from != c.to)
    && (c.Gone? ==> Holds(s, c.from, c.f))
  }

  // ---------------------------------------------------------------- the list

  lemma QueueAppend(q: seq<Entry>, e: Entry, k: nat, f: FiberId)
    ensures QueueHolds(q + [e], k, f) <==> QueueHolds(q, k, f) || (e.serial == k && Target(e.job) == Some(f))
  {
    if QueueHolds(q, k, f) {
      var i :| 0 <= i < |q| && q[i].serial == k && Target(q[i].job) == Some(f);
      assert (q + [e])[i] == q[i];
    }
    assert (q + [e])[|q|] == e;
  }

  lemma QueueErase(q: seq<Entry>, j: nat, k: nat, f: FiberId)
    requires j < |q| && forall i, i' :: 0 <= i < i' < |q| ==> q[i].serial < q[i'].serial
    ensures QueueHolds(Erase(q, j), k, f) <==> QueueHolds(q, k, f) && k != q[j].serial
  {
    var r := Erase(q, j);
    if QueueHolds(q, k, f) && k != q[j].serial {
      var i :| 0 <= i < |q| && q[i].serial == k && Target(q[i].job) == Some(f);
      assert r[if i < j then i else i - 1] == q[i];
    }
    if QueueHolds(r, k, f) {
      var i :| 0 <= i < |r| && r[i].serial == k && Target(r[i].job) == Some(f);
      assert r[i] == q[if i < j then i else i + 1];
    }
  }

  /** Appending affects the queue only. */
  lemma AppendHolds(s: World, job: Job, pin: int, reg: Option<nat>, l: Loc, f: FiberId)
    ensures Holds(Append(s, job, pin, reg), l, f) <==>
              Holds(s, l, f) || (l == InQueue(|s.log|) && Target(job) == Some(f))
  {
    if l.InQueue? { QueueAppend(s.queue, Entry(|s.log|, job, pin, reg), l.serial, f); }
  }

  lemma LostHolds(s: World, t: Option<FiberId>, l: Loc, f: FiberId)
    ensures Holds(Lost(s, t), l, f) <==> Holds(s, l, f)
  {
  }

  // ---------------------------------------------------------------- per step

  lemma DequeueDelta(s: World, w: nat, l: Loc, f: FiberId)
    requires QueueOrdered(s) && Enabled(s, Dequeue(w))
    ensures Holds(Apply(s, Dequeue(w)), l, f) <==> HoldsAfter(s, ChangeOf(s, Dequeue(w)), l, f)
  {
    if l.InQueue? { QueueErase(s.queue, s.workers[w].pc.i, l.serial, f); }
    var e := s.queue[s.workers[w].pc.i];
    assert Target(e.job) == Some(f) ==> QueueHolds(s.queue, e.serial, f);
    if l == InQueue(e.serial) && QueueHolds(s.queue, e.serial, f) {
      var i :| 0 <= i < |s.queue| && s.queue[i].serial == e.serial && Target(s.queue[i].job) == Some(f);
      assert i == s.workers[w].pc.i;
    }
  }

  lemma BranchFiberDelta(s: World, w: nat, g: FiberId, l: Loc, f: FiberId)
    requires At(s, w) && s.workers[w].pc.Taken? && s.workers[w].pc.entry.job == FiberJob(g) && g < |s.fibers|
    ensures Holds(DoBranchFiber(s, w, g), l, f) <==>
              HoldsAfter(s, if Dead(s.fibers[g].state) then Gone(InHand(w), g) else Same, l, f)
  {
  }

  lemma BranchCbDelta(s: World, w: nat, code: Code, l: Loc, f: FiberId)
    requires FiberInv(s) && At(s, w) && s.workers[w].pc.Taken? && s.workers[w].pc.entry.job == CbJob(code)
    requires s.workers[w].cbFiber.Some? ==> s.workers[w].cbFiber.value < |s.fibers|
    ensures var c := if s.workers[w].cbFiber.Some? then s.workers[w].cbFiber.value else |s.fibers|;
            Holds(DoBranchCb(s, w, code), l, f) <==>
                HoldsAfter(s, MovedIf(CodeTarget(code), InHand(w), InFiber(c)), l, f)
  {
    assert CbFiberOk(s, w);
    hide PcOk, FiberOk, OneWake, Exclusive;
  }

  lemma BranchDelta(s: World, w: nat, l: Loc, f: FiberId)
    requires FiberInv(s) && Enabled(s, Branch(w))
    ensures Holds(Apply(s, Branch(w)), l, f) <==> HoldsAfter(s, ChangeOf(s, Branch(w)), l, f)
  {
    hide FiberInv, Holds, HoldsAfter, DoBranchFiber, DoBranchCb, Dead, MovedIf, CodeTarget;
    match s.workers[w].pc.entry.job
    case FiberJob(g) => BranchFiberDelta(s, w, g, l, f);
    case CbJob(code) => BranchCbDelta(s, w, code, l, f);
  }

  lemma SwapInDelta(s: World, w: nat, l: Loc, f: FiberId)
    requires Enabled(s, SwapIn(w))
    ensures Holds(Apply(s, SwapIn(w)), l, f) <==> HoldsAfter(s, ChangeOf(s, SwapIn(w)), l, f)
  {
    hide AddMask, DropMask, Eligible, Stopping, FdFree, MutexFree, Armed, Cleared, Deleted;
  }

  lemma SameHolds(s: World, l: Loc, f: FiberId)
    ensures HoldsAfter(s, Same, l, f) <==> Holds(s, l, f)
  {
  }

  lemma RecycledHolds(s: World, recycled: set<FiberId>, l: Loc, f: FiberId)
    ensures Holds(s.(recycled := recycled), l, f) <==> Holds(s, l, f)
  {
  }

  /** A READY fiber goes back to the list. */
  lemma RequeueDelta(s: World, w: nat, l: Loc, f: FiberId)
    requires OnFiber(s, w) && s.workers[w].pc.Settle? && s.fibers[s.workers[w].pc.f].state == READY
    ensures Holds(DoSettled(s, w), l, f) <==> HoldsAfter(s, Made(InQueue(|s.log|), s.workers[w].pc.f), l, f)
  {
    hide QueueHolds;
    var g := s.workers[w].pc.f;
    var back := if s.workers[w].pc.cb then s.workers[w].(pc := Top, cbFiber := None) else s.workers[w].(pc := Top);
    var s1 := s.(workers := s.workers[w := back]);
    assert DoSettled(s, w) == Append(s1, FiberJob(g), -1, None);
    AppendHolds(s1, FiberJob(g), -1, None, l, f);
    hide Append;
  }

  lemma ParkDelta(s: World, w: nat, l: Loc, f: FiberId)
    requires OnFiber(s, w) && s.workers[w].pc.Settle? && s.fibers[s.workers[w].pc.f].state != READY
    requires FiberOk(s, s.workers[w].pc.f)
    ensures Holds(DoSettled(s, w), l, f) <==> Holds(s, l, f)
  {
    hide QueueHolds, Outstanding;
  }

  lemma SettledDelta(s: World, w: nat, l: Loc, f: FiberId)
    requires FiberInv(s) && Enabled(s, Settled(w))
    ensures Holds(Apply(s, Settled(w)), l, f) <==> HoldsAfter(s, ChangeOf(s, Settled(w)), l, f)
  {
    hide Holds, HoldsAfter, DoSettled, DoReset, Recycles, MutexFree, FiberOk, PcOk, CbFiberOk, OneWake, Exclusive;
    if s.fibers[s.workers[w].pc.f].state == READY { RequeueDelta(s, w, l, f); } else { ParkDelta(s, w, l, f); }
    SameHolds(s, l, f);
    RecycledHolds(Apply(s, Settled(w)), s.recycled, l, f);
  }

  lemma DoFinishDelta(s: World, w: nat, thrown: bool, l: Loc, f: FiberId)
    requires RunningQuiet(s, w)
    ensures var c := s.workers[w].pc.f;
            Holds(DoFinish(s, w, thrown), l, f) <==>
                HoldsAfter(s, GoneIf(CodeTarget(s.fibers[c].code), InFiber(c)), l, f)
  {
  }

  lemma FinishDelta(s: World, w: nat, thrown: bool, l: Loc, f: FiberId)
    requires Enabled(s, Finish(w, thrown))
    ensures Holds(Apply(s, Finish(w, thrown)), l, f) <==> HoldsAfter(s, ChangeOf(s, Finish(w, thrown)), l, f)
  {
    hide Holds, HoldsAfter, DoFinish, DoEnd, GoneIf, CodeTarget;
    DoFinishDelta(s, w, thrown, l, f);
    UntidyHolds(Apply(s, Finish(w, thrown)), s.untidy, l, f);
  }

  lemma UntidyHolds(s: World, untidy: set<FiberId>, l: Loc, f: FiberId)
    ensures Holds(s.(untidy := untidy), l, f) <==> Holds(s, l, f)
  {
  }

  lemma PostDelta(s: World, step: Step, l: Loc, f: FiberId)
    requires Enabled(s, step) && (step.Spawn? || step.Post?)
    ensures Holds(Apply(s, step), l, f) <==> HoldsAfter(s, ChangeOf(s, step), l, f)
  {
    hide AddMask, DropMask, Eligible, Stopping, FdFree, MutexFree, Outstanding;
    match step
    case Spawn(pin) =>
      AppendHolds(s.(fibers := s.fibers + [Fiber(INIT, Plain)]), FiberJob(|s.fibers|), pin, None, l, f);
    case Post(pin) => AppendHolds(s, CbJob(Plain), pin, None, l, f);
  }

  lemma WakeSelfDelta(s: World, w: nat, pin: int, l: Loc, f: FiberId)
    requires Enabled(s, WakeSelf(w, pin))
    ensures Holds(Apply(s, WakeSelf(w, pin)), l, f) <==> HoldsAfter(s, ChangeOf(s, WakeSelf(w, pin)), l, f)
  {
    hide AddMask, DropMask, Eligible, Stopping, FdFree, MutexFree, Outstanding;
    AppendHolds(Refreshed(s, s.workers[w].pc.f), FiberJob(s.workers[w].pc.f), pin, None, l, f);
  }

  lemma HandOverDelta(s: World, step: Step, l: Loc, f: FiberId)
    requires Enabled(s, step) && (step.RunWake? || step.Expire?)
    ensures Holds(Apply(s, step), l, f) <==> HoldsAfter(s, ChangeOf(s, step), l, f)
  {
    hide AddMask, DropMask, Eligible, Stopping, FdFree, MutexFree, Outstanding;
    match step
    case RunWake(w) =>
      var c := s.workers[w].pc.f;
      AppendHolds(SetFiber(s, c, s.fibers[c].(code := Plain)), FiberJob(s.fibers[c].code.target), -1, None, l, f);
    case Expire(w, id) => AppendHolds(s.(timers := s.timers - {id}), CbJob(s.timers[id]), -1, None, l, f);
  }

  lemma TimerDelta(s: World, step: Step, l: Loc, f: FiberId)
    requires Enabled(s, step) && (step.SleepSelf? || step.PlainTimer? || step.DropTimer?)
    ensures Holds(Apply(s, step), l, f) <==> HoldsAfter(s, ChangeOf(s, step), l, f)
  {
  }

  lemma AddEventDelta(s: World, fd: nat, ev: Event, job: Job, l: Loc, f: FiberId)
    requires TableInv(s) && FdFree(s, fd) && ev !in Context(s.table, fd).events
    requires |s.table.fds| >= 2 && AddMask(s.table, fd, ev).Some?
    ensures Holds(DoAddEvent(s, fd, ev, job), l, f) <==>
              Holds(s, l, f) || (l == InSlot(fd, ev) && Target(job) == Some(f))
  {
    hide Armed, KernelOk, Consistent, LocksOk, AddMask, QueueHolds;
    FreeIsEmpty(s, fd);
    if l.InSlot? { ArmedSlot(s.table, fd, ev, job, s.regs, l.fd, l.ev); }
    if l.InSlot? && l.fd == fd && l.ev == ev { ArmedSlot(s.table, fd, ev, job, s.regs, fd, ev); }
  }

  lemma WatchEventDelta(s: World, w: nat, fd: nat, ev: Event, l: Loc, f: FiberId)
    requires TableInv(s) && Enabled(s, WatchEvent(w, fd, ev))
    ensures Holds(Apply(s, WatchEvent(w, fd, ev)), l, f) <==> HoldsAfter(s, ChangeOf(s, WatchEvent(w, fd, ev)), l, f)
  {
    AddEventDelta(s, fd, ev, CbJob(Plain), l, f);
  }

  lemma WaitEventDelta(s: World, w: nat, fd: nat, ev: Event, l: Loc, f: FiberId)
    requires TableInv(s) && Enabled(s, WaitEvent(w, fd, ev))
    ensures Holds(Apply(s, WaitEvent(w, fd, ev)), l, f) <==> HoldsAfter(s, ChangeOf(s, WaitEvent(w, fd, ev)), l, f)
  {
    var g := s.workers[w].pc.f;
    AddEventDelta(s, fd, ev, FiberJob(g), l, f);
    assert Holds(Apply(s, WaitEvent(w, fd, ev)), l, f) <==> Holds(DoAddEvent(s, fd, ev, FiberJob(g)), l, f);
  }

  lemma DelEventDelta(s: World, w: nat, fd: nat, ev: Event, l: Loc, f: FiberId)
    requires Enabled(s, DelEvent(w, fd, ev))
    ensures Holds(Apply(s, DelEvent(w, fd, ev)), l, f) <==> HoldsAfter(s, ChangeOf(s, DelEvent(w, fd, ev)), l, f)
  {
    if l.InSlot? { DeletedSlot(s.table, fd, ev, l.fd, l.ev); }
    var slot := Context(s.table, fd).At(ev);
    var deleted := if slot.Full? then s.deleted + {slot.reg} else s.deleted;
    var s1 := s.(table := Deleted(s.table, fd, ev), deleted := deleted);
    LostHolds(s1, SlotTarget(slot), l, f);
  }

  lemma FreeIsEmpty(s: World, fd: nat)
    requires TableInv(s) && FdFree(s, fd)
    ensures Todo(s, fd) == {} && KernelOk(s.table, fd, {})
  {
    assert Todo(s, fd) == {};
    assert KernelOk(s.table, fd, Todo(s, fd));
  }

  lemma SlotHolds(s: World, fd: nat, ev: Event, f: FiberId)
    requires fd < |s.table.fds|
    ensures Holds(s, InSlot(fd, ev), f) <==> SlotTarget(s.table.fds[fd].At(ev)) == Some(f)
  {
  }

  /** Clearing a slot destroys the wake-up in it and no other. */
  lemma ClearedHolds(s: World, w: nat, fire: Firing, fd: nat, ev: Event, l: Loc, f: FiberId)
    requires w < |s.workers| && fd < |s.table.fds| && FiringOf(s.workers[w].pc).Firing?
    ensures var t := SetPc(s, w, WithFiring(s.workers[w].pc, fire)).(table := Cleared(s.table, fd, ev));
            Holds(t, l, f) <==> Holds(s, l, f) && l != InSlot(fd, ev)
  {
    hide Cleared, QueueHolds;
    if l.InSlot? { ClearedSlot(s.table, fd, ev, l.fd, l.ev); }
  }

  lemma DoTriggerDelta(s: World, w: nat, l: Loc, f: FiberId)
    requires TriggerReady(s, w)
    ensures var fire := FiringOf(s.workers[w].pc);
            var slot := s.table.fds[fire.fd].At(Next(fire.todo));
            Holds(DoTrigger(s, w), l, f) <==>
                HoldsAfter(s, MovedIf(SlotTarget(slot), InSlot(fire.fd, Next(fire.todo)), InQueue(|s.log|)), l, f)
  {
    hide Cleared, Append, Holds;
    var Firing(fd, todo) := FiringOf(s.workers[w].pc);
    var ev := Next(todo);
    var slot := s.table.fds[fd].At(ev);
    var fire := if todo - {ev} == {} then Quiet else Firing(fd, todo - {ev});
    ClearedHolds(s, w, fire, fd, ev, l, f);
    var t := SetPc(s, w, WithFiring(s.workers[w].pc, fire)).(table := Cleared(s.table, fd, ev));
    AppendHolds(t, slot.job, -1, Some(slot.reg), l, f);
    SlotHolds(s, fd, ev, f);
  }

  lemma TriggerDelta(s: World, w: nat, l: Loc, f: FiberId)
    requires TableInv(s) && Enabled(s, Trigger(w))
    ensures Holds(Apply(s, Trigger(w)), l, f) <==> HoldsAfter(s, ChangeOf(s, Trigger(w)), l, f)
  {
    hide Holds, HoldsAfter, DoTrigger, MovedIf, SlotTarget, Next, MutexFree, Consistent, LocksOk, KernelOk;
    DoTriggerDelta(s, w, l, f);
  }

  lemma FiringDelta(s: World, step: Step, l: Loc, f: FiberId)
    requires Enabled(s, step) && (step.Cancel? || step.Deliver?)
    ensures Holds(Apply(s, step), l, f) <==> HoldsAfter(s, ChangeOf(s, step), l, f)
  {
    var s' := Apply(s, step);
    assert s'.table.fds == s.table.fds;
    assert forall k: nat :: Context(s'.table, k) == Context(s.table, k);
  }

  lemma ScanDelta(s: World, step: Step, l: Loc, f: FiberId)
    requires Enabled(s, step) && (step.Acquire? || step.Skip? || step.ScanEnd?)
    ensures Holds(Apply(s, step), l, f) <==> HoldsAfter(s, ChangeOf(s, step), l, f)
  {
    hide AddMask, DropMask, Eligible, Stopping, FdFree, MutexFree, Outstanding;
  }

  lemma IdleDelta(s: World, step: Step, l: Loc, f: FiberId)
    requires Enabled(s, step) && (step.Idling? || step.Fail? || step.LeaveIdle? || step.ExitIdle? || step.Stop?)
    ensures Holds(Apply(s, step), l, f) <==> HoldsAfter(s, ChangeOf(s, step), l, f)
  {
    hide AddMask, DropMask, Eligible, Stopping, FdFree, MutexFree, Outstanding;
  }

  lemma LeaveDelta(s: World, step: Step, l: Loc, f: FiberId)
    requires Enabled(s, step)
    requires step.YieldToHold? || step.YieldToReady? || step.SwapOut? || step.Release?
    ensures Holds(Apply(s, step), l, f) <==> HoldsAfter(s, ChangeOf(s, step), l, f)
  {
    hide AddMask, DropMask, Eligible, Stopping, FdFree, MutexFree;
  }

  lemma RunDeltaAt(s: World, step: Step, l: Loc, f: FiberId)
    requires QueueOrdered(s) && FiberInv(s) && Enabled(s, step) && !TableStep(step)
    ensures Holds(Apply(s, step), l, f) <==> HoldsAfter(s, ChangeOf(s, step), l, f)
  {
    hide Apply, Enabled, ChangeOf, Holds, HoldsAfter, FiberInv, QueueOrdered;
    match step
    case Dequeue(w) => DequeueDelta(s, w, l, f);
    case Branch(w) => BranchDelta(s, w, l, f);
    case SwapIn(w) => SwapInDelta(s, w, l, f);
    case Finish(w, thrown) => FinishDelta(s, w, thrown, l, f);
    case Settled(w) => SettledDelta(s, w, l, f);
    case Spawn(_) => PostDelta(s, step, l, f);
    case Post(_) => PostDelta(s, step, l, f);
    case WakeSelf(w, pin) => WakeSelfDelta(s, w, pin, l, f);
    case RunWake(_) => HandOverDelta(s, step, l, f);
    case Expire(_, _) => HandOverDelta(s, step, l, f);
    case SleepSelf(_, _) => TimerDelta(s, step, l, f);
    case PlainTimer(_) => TimerDelta(s, step, l, f);
    case DropTimer(_) => TimerDelta(s, step, l, f);
    case YieldToHold(_) => LeaveDelta(s, step, l, f);
    case YieldToReady(_) => LeaveDelta(s, step, l, f);
    case SwapOut(_) => LeaveDelta(s, step, l, f);
    case Release(_) => LeaveDelta(s, step, l, f);
    case Idling(_, _) => IdleDelta(s, step, l, f);
    case Fail(_, _) => IdleDelta(s, step, l, f);
    case LeaveIdle(_) => IdleDelta(s, step, l, f);
    case ExitIdle(_) => IdleDelta(s, step, l, f);
    case Stop => IdleDelta(s, step, l, f);
    case _ => ScanDelta(s, step, l, f);
  }

  lemma TableDeltaAt(s: World, step: Step, l: Loc, f: FiberId)
    requires TableInv(s) && Enabled(s, step) && TableStep(step)
    ensures Holds(Apply(s, step), l, f) <==> HoldsAfter(s, ChangeOf(s, step), l, f)
  {
    hide Apply, Enabled, ChangeOf, Holds, HoldsAfter, TableInv;
    match step
    case WaitEvent(w, fd, ev) => WaitEventDelta(s, w, fd, ev, l, f);
    case WatchEvent(w, fd, ev) => WatchEventDelta(s, w, fd, ev, l, f);
    case DelEvent(w, fd, ev) => DelEventDelta(s, w, fd, ev, l, f);
    case Trigger(w) => TriggerDelta(s, w, l, f);
    case Cancel(_, _, _) => FiringDelta(s, step, l, f);
    case Deliver(_, _, _) => FiringDelta(s, step, l, f);
  }

  lemma StepDelta(s: World, step: Step)
    requires QueueOrdered(s) && TableInv(s) && FiberInv(s) && Enabled(s, step)
    ensures Delta(s, Apply(s, step), ChangeOf(s, step))
  {
    hide Apply, Enabled, ChangeOf, Holds, HoldsAfter, TableInv, FiberInv, QueueOrdered;
    var s', c := Apply(s, step), ChangeOf(s, step);
    forall l, f: FiberId ensures Holds(s', l, f) <==> HoldsAfter(s, c, l, f) {
      if TableStep(step) { TableDeltaAt(s, step, l, f); } else { RunDeltaAt(s, step, l, f); }
    }
    ChangeSource(s, step);
  }

  lemma ChangeSource(s: World, step: Step)
    requires Enabled(s, step)
    ensures var c := ChangeOf(s, step);
            && (c.Moved? ==> Holds(s, c.from, c.f) && c.from != c.to)
            && (c.Gone? ==> Holds(s, c.from, c.f))
  {
    hide AddMask, DropMask, Eligible, Stopping, FdFree, MutexFree, Armed, Cleared, Deleted;
    if step.Dequeue? {
      var e := s.queue[s.workers[step.w].pc.i];
      assert Target(e.job).Some? ==> QueueHolds(s.queue, e.serial, Target(e.job).value);
    }
  }

  // ---------------------------------------------------------------- consequences

  lemma SameLocSameFiber(s: World, l: Loc, f: FiberId, g: FiberId)
    requires QueueOrdered(s) && Holds(s, l, f) && Holds(s, l, g)
    ensures f == g
  {
    if l.InQueue? {
      var i :| 0 <= i < |s.queue| && s.queue[i].serial == l.serial && Target(s.queue[i].job) == Some(f);
      var j :| 0 <= j < |s.queue| && s.queue[j].serial == l.serial && Target(s.queue[j].job) == Some(g);
      assert i == j;
    }
  }

  predicate WokenAfter(before: bool, c: Change, f: FiberId) {
    match c
    case Same => before
    case Moved(_, _, _) => before
    case Made(_, g) => before || f == g
    case Gone(_, g) => before && f != g
  }

  /** A wake-up for f is under way after the step exactly when it was before, unless the step made
      or destroyed it. */
  lemma OutstandingAfter(s: World, s': World, c: Change, f: FiberId)
    requires QueueOrdered(s) && OneWake(s) && Delta(s, s', c)
    ensures Outstanding(s', f) <==> WokenAfter(Outstanding(s, f), c, f)
  {
    if Outstanding(s, f) {
      var l :| Holds(s, l, f);
      if (c.Moved? || c.Gone?) && l == c.from { SameLocSameFiber(s, l, f, c.f); }
      var l' := if c.Moved? && l == c.from then c.to else l;
      assert Holds(s', l', f) <==> HoldsAfter(s, c, l', f);
    }
    if c.Made? { assert Holds(s', c.to, c.f) <==> HoldsAfter(s, c, c.to, c.f); }
    if Outstanding(s', f) {
      var l :| Holds(s', l, f);
      assert HoldsAfter(s, c, l, f);
    }
  }

  /** A step never leaves two wake-ups for one fiber, provided the one it makes is the first. */
  lemma OneWakeAfter(s: World, s': World, c: Change)
    requires QueueOrdered(s) && OneWake(s) && Delta(s, s', c)
    requires c.Made? ==> !Outstanding(s, c.f) && c.f < |s'.fibers|
    requires |s.fibers| <= |s'.fibers|
    ensures OneWake(s')
  {
    forall l1, l2, f: FiberId | Holds(s', l1, f) && Holds(s', l2, f) ensures l1 == l2 {
      assert HoldsAfter(s, c, l1, f) && HoldsAfter(s, c, l2, f);
    }
    forall l, f: FiberId | Holds(s', l, f) ensures f < |s'.fibers| {
      assert HoldsAfter(s, c, l, f);
    }
  }
}
