/** Every step keeps the event-table part of the invariant and the account of registrations. */
module TableSafety {
  import opened Tasks
  import opened Wrappers
  import opened EventTable
  import opened World
  import opened Invariants
  import opened QueueSafety
  import opened Wakes

  predicate SameFiring(s: World, s': World) {
    && |s'.workers| == |s.workers|
    && forall w :: 0 <= w < |s.workers| ==> FiringOf(s'.workers[w].pc) == FiringOf(s.workers[w].pc)
  }

  lemma SameTodo(s: World, s': World, fd: nat)
    requires SameFiring(s, s')
    ensures Todo(s', fd) == Todo(s, fd)
  {
    forall ev: Event ensures BeingFired(s', fd, ev) <==> BeingFired(s, fd, ev) {
      if BeingFired(s, fd, ev) {
        var w :| 0 <= w < |s.workers| && Fires(s.workers[w].pc, fd, ev);
        assert Fires(s'.workers[w].pc, fd, ev);
      }
      if BeingFired(s', fd, ev) {
        var w :| 0 <= w < |s'.workers| && Fires(s'.workers[w].pc, fd, ev);
        assert Fires(s.workers[w].pc, fd, ev);
      }
    }
  }

  /** One worker's firing set changes, on one descriptor no other worker is firing. */
  lemma OneTodo(s: World, s': World, w: nat, fd: nat)
    requires LocksOk(s) && w < |s.workers| == |s'.workers| && s'.workers == s.workers[w := s'.workers[w]]
    requires FiringOf(s.workers[w].pc).Firing? ==> FiringOf(s.workers[w].pc).fd == fd
    requires FiringOf(s'.workers[w].pc).Firing? ==> FiringOf(s'.workers[w].pc).fd == fd
    requires forall v :: 0 <= v < |s.workers| && v != w && FiringOf(s.workers[v].pc).Firing? ==>
              FiringOf(s.workers[v].pc).fd != fd
    ensures Todo(s', fd) == if FiringOf(s'.workers[w].pc).Firing? then FiringOf(s'.workers[w].pc).todo else {}
    ensures forall k: nat :: k != fd ==> Todo(s', k) == Todo(s, k)
  {
    var todo := if FiringOf(s'.workers[w].pc).Firing? then FiringOf(s'.workers[w].pc).todo else {};
    forall ev: Event ensures BeingFired(s', fd, ev) <==> ev in todo {
      if ev in todo { assert Fires(s'.workers[w].pc, fd, ev); }
    }
    forall k: nat | k != fd ensures Todo(s', k) == Todo(s, k) {
      forall ev: Event ensures BeingFired(s', k, ev) <==> BeingFired(s, k, ev) {
        if BeingFired(s, k, ev) {
          var v :| 0 <= v < |s.workers| && Fires(s.workers[v].pc, k, ev);
          assert Fires(s'.workers[v].pc, k, ev);
        }
        if BeingFired(s', k, ev) {
          var v :| 0 <= v < |s'.workers| && Fires(s'.workers[v].pc, k, ev);
          assert Fires(s.workers[v].pc, k, ev);
        }
      }
    }
  }

  lemma KernelFrame(t: Table, t': Table, fd: nat, todo: set<Event>)
    requires KernelOk(t, fd, todo) && Context(t', fd) == Context(t, fd)
    requires (fd in t'.kernel <==> fd in t.kernel) && (fd in t.kernel ==> t'.kernel[fd] == t.kernel[fd])
    ensures KernelOk(t', fd, todo)
  {
  }

  // ---------------------------------------------------------------- steps off the table

  predicate OffTable(s: World, s': World) {
    s'.table == s.table && SameFiring(s, s') && s'.regs == s.regs && s'.deleted == s.deleted
  }

  lemma ScanOffTable(s: World, step: Step)
    requires Enabled(s, step) && (step.Acquire? || step.Skip? || step.Dequeue? || step.ScanEnd?)
    ensures OffTable(s, Apply(s, step))
  {
    hide Outstanding, Context, Eligible, Stopping, FdFree, MutexFree, Target;
  }

  lemma LoopOffTable(s: World, step: Step)
    requires Enabled(s, step) && (step.Branch? || step.SwapIn? || step.Release? || step.Settled?)
    ensures OffTable(s, Apply(s, step))
  {
    hide Outstanding, Context, Eligible, Stopping, FdFree, MutexFree, Target, DoBranchFiber, DoBranchCb, DoSettled;
  }

  lemma CodeOffTable(s: World, step: Step)
    requires Enabled(s, step) && CodeStep(step)
    ensures OffTable(s, Apply(s, step))
  {
    hide Outstanding, Context, Eligible, Stopping, FdFree, MutexFree, Target;
  }

  lemma OtherOffTable(s: World, step: Step)
    requires Enabled(s, step) && !LoopStep(step) && !CodeStep(step) && !TableStep(step)
    ensures OffTable(s, Apply(s, step))
  {
    hide Outstanding, Context, Eligible, Stopping, FdFree, MutexFree, Target;
  }

  lemma OffTableStep(s: World, step: Step)
    requires Enabled(s, step) && !TableStep(step)
    ensures OffTable(s, Apply(s, step))
  {
    hide Enabled, Apply, OffTable;
    if step.Acquire? || step.Skip? || step.Dequeue? || step.ScanEnd? { ScanOffTable(s, step); }
    else if LoopStep(step) { LoopOffTable(s, step); }
    else if CodeStep(step) { CodeOffTable(s, step); }
    else { OtherOffTable(s, step); }
  }

  lemma OffTableKeeps(s: World, s': World)
    requires TableInv(s) && OffTable(s, s')
    ensures TableInv(s')
  {
    forall fd: nat ensures KernelOk(s'.table, fd, Todo(s', fd)) {
      SameTodo(s, s', fd);
      assert KernelOk(s.table, fd, Todo(s, fd));
    }
  }

  // ---------------------------------------------------------------- steps on the table

  lemma AddKeeps(s: World, s': World, fd: nat, ev: Event, job: Job)
    requires TableInv(s) && FdFree(s, fd) && ev !in Context(s.table, fd).events
    requires |s.table.fds| >= 2 && AddMask(s.table, fd, ev).Some?
    requires s'.workers == s.workers && s'.table == Armed(s.table, fd, ev, job, s.regs)
    ensures TableInv(s')
  {
    FreeIsEmpty(s, fd);
    ArmedKeeps(s.table, fd, ev, job, s.regs);
    forall k: nat ensures KernelOk(s'.table, k, Todo(s', k)) {
      SameTodo(s, s', k);
      if k != fd {
        assert KernelOk(s.table, k, Todo(s, k));
        KernelFrame(s.table, s'.table, k, Todo(s, k));
      }
    }
  }

  lemma DelKeeps(s: World, s': World, fd: nat, ev: Event)
    requires TableInv(s) && FdFree(s, fd) && ev in Context(s.table, fd).events && DropMask(s.table, fd, {ev}).Some?
    requires s'.workers == s.workers && s'.table == Deleted(s.table, fd, ev)
    ensures TableInv(s')
  {
    FreeIsEmpty(s, fd);
    DeletedKeeps(s.table, fd, ev);
    forall k: nat ensures KernelOk(s'.table, k, Todo(s', k)) {
      SameTodo(s, s', k);
      if k != fd {
        assert KernelOk(s.table, k, Todo(s, k));
        KernelFrame(s.table, s'.table, k, Todo(s, k));
      }
    }
  }

  lemma DoFiringKeeps(s: World, w: nat, fd: nat, gone: set<Event>)
    requires TableInv(s) && FdFree(s, fd) && gone != {} && gone <= Context(s.table, fd).events
    requires DropMask(s.table, fd, gone).Some?
    requires At(s, w) && (s.workers[w].pc.Running? || s.workers[w].pc.Idle?) && FiringOf(s.workers[w].pc) == Quiet
    ensures TableInv(DoFiring(s, w, fd, gone))
  {
    var s' := DoFiring(s, w, fd, gone);
    FreeIsEmpty(s, fd);
    DropAccepted(s.table, fd, gone);
    OneTodo(s, s', w, fd);
    forall k: nat ensures KernelOk(s'.table, k, Todo(s', k)) {
      if k != fd {
        assert KernelOk(s.table, k, Todo(s, k));
        KernelFrame(s.table, s'.table, k, Todo(s, k));
      }
    }
  }

  lemma CancelKeeps(s: World, w: nat, fd: nat, gone: set<Event>)
    requires TableInv(s) && Enabled(s, Cancel(w, fd, gone))
    ensures TableInv(Apply(s, Cancel(w, fd, gone)))
  {
    hide TableInv, FdFree, DropMask, Context, DoFiring;
    DoFiringKeeps(s, w, fd, gone);
  }

  /** A report that was acted on or dropped is no part of the table. */
  lemma UnheldKeeps(s: World, w: nat, fd: nat)
    requires At(s, w)
    ensures OffTable(s, Unheld(s, w, fd)) && (FdFree(s, fd) ==> FdFree(Unheld(s, w, fd), fd))
  {
    assert SameFiring(s, Unheld(s, w, fd));
  }

  lemma DeliverKeeps(s: World, w: nat, fd: nat, seen: set<Event>)
    requires TableInv(s) && Enabled(s, Deliver(w, fd, seen))
    ensures TableInv(Apply(s, Deliver(w, fd, seen)))
  {
    hide TableInv, FdFree, DropMask, Context, DoFiring;
    UnheldKeeps(s, w, fd);
    OffTableKeeps(s, Unheld(s, w, fd));
    DoFiringKeeps(Unheld(s, w, fd), w, fd, seen);
  }

  /** Who fires a descriptor fires registered bits only. */
  lemma TodoRegistered(s: World, w: nat)
    requires TableInv(s) && w < |s.workers| && FiringOf(s.workers[w].pc).Firing?
    ensures var Firing(fd, todo) := FiringOf(s.workers[w].pc);
            && fd < |s.table.fds| && todo == Todo(s, fd) && todo <= s.table.fds[fd].events && todo != {}
            && s.table.fds[fd].At(Next(todo)).Full?
  {
    var Firing(fd, todo) := FiringOf(s.workers[w].pc);
    OneTodo(s, s, w, fd);
    assert KernelOk(s.table, fd, Todo(s, fd));
    assert SlotsOk(s.table.fds[fd]);
  }

  lemma DoTriggerKeeps(s: World, w: nat)
    requires TableInv(s) && TriggerReady(s, w)
    ensures TableInv(DoTrigger(s, w))
  {
    hide DoTrigger, Cleared, Next, Consistent, Todo;
    var s' := DoTrigger(s, w);
    var Firing(fd, todo) := FiringOf(s.workers[w].pc);
    TodoRegistered(s, w);
    assert KernelOk(s.table, fd, todo);
    ClearedKeeps(s.table, fd, Next(todo));
    TriggerKeepsKernel(s.table, fd, Next(todo), todo);
    OneTodo(s, s', w, fd);
    forall k: nat ensures KernelOk(s'.table, k, Todo(s', k)) {
      if k != fd {
        assert KernelOk(s.table, k, Todo(s, k));
        KernelFrame(s.table, s'.table, k, Todo(s, k));
      }
    }
    assert |s'.table.fds| == |s.table.fds| by { ClearedLength(s.table, fd, Next(todo)); }
  }

  lemma ClearedLength(t: Table, fd: nat, ev: Event)
    requires fd < |t.fds|
    ensures |Cleared(t, fd, ev).fds| == |t.fds|
  {
  }

  lemma TriggerKeeps(s: World, w: nat)
    requires TableInv(s) && Enabled(s, Trigger(w))
    ensures TableInv(Apply(s, Trigger(w)))
  {
    hide TableInv, DoTrigger, MutexFree;
    DoTriggerKeeps(s, w);
  }

  lemma AddStepKeeps(s: World, step: Step)
    requires TableInv(s) && Enabled(s, step) && (step.WaitEvent? || step.WatchEvent?)
    ensures TableInv(Apply(s, step))
  {
    hide TableInv, Outstanding, FdFree, Context, AddMask, Armed;
    var waiter := if step.WaitEvent? then FiberJob(s.workers[step.w].pc.f) else CbJob(Plain);
    AddKeeps(s, Apply(s, step), step.fd, step.ev, waiter);
  }

  lemma DelStepKeeps(s: World, w: nat, fd: nat, ev: Event)
    requires TableInv(s) && Enabled(s, DelEvent(w, fd, ev))
    ensures TableInv(Apply(s, DelEvent(w, fd, ev)))
  {
    hide TableInv, FdFree, DropMask, Deleted;
    DelKeeps(s, Apply(s, DelEvent(w, fd, ev)), fd, ev);
  }

  lemma OffTableStepKeeps(s: World, step: Step)
    requires TableInv(s) && Enabled(s, step) && !TableStep(step)
    ensures TableInv(Apply(s, step))
  {
    hide Enabled, Apply, TableInv, OffTable;
    OffTableStep(s, step);
    OffTableKeeps(s, Apply(s, step));
  }

  lemma TableStepKeeps(s: World, step: Step)
    requires TableInv(s) && Enabled(s, step)
    ensures TableInv(Apply(s, step))
  {
    hide Enabled, Apply, TableInv;
    match step
    case WaitEvent(_, _, _) => AddStepKeeps(s, step);
    case WatchEvent(_, _, _) => AddStepKeeps(s, step);
    case DelEvent(w, fd, ev) => DelStepKeeps(s, w, fd, ev);
    case Cancel(w, fd, gone) => CancelKeeps(s, w, fd, gone);
    case Deliver(w, fd, seen) => DeliverKeeps(s, w, fd, seen);
    case Trigger(w) => TriggerKeeps(s, w);
    case _ => OffTableStepKeeps(s, step);
  }

  // ---------------------------------------------------------------- registrations

  /** How a step moves registrations. */
  datatype RegChange = RegSame | RegNew(at: RegLoc) | RegMoved(from: RegLoc, to: RegLoc, r: nat)

  predicate RegAfter(s: World, c: RegChange, l: RegLoc, r: nat) {
    match c
    case RegSame => RegAt(s, l, r)
    case RegNew(b) => RegAt(s, l, r) || (l == b && r == s.regs)
    case RegMoved(a, b, q) => (RegAt(s, l, r) && !(l == a && r == q)) || (l == b && r == q)
  }

  ghost predicate RegDelta(s: World, s': World, c: RegChange) {
    && (forall l, r: nat :: RegAt(s', l, r) <==> RegAfter(s, c, l, r))
    && s'.regs == s.regs + (if c.RegNew? then 1 else 0)
    && (c.RegMoved? ==> RegAt(s, c.from, c.r) && c.from != c.to)
  }

  lemma RegDeltaKeeps(s: World, s': World, c: RegChange)
    requires RegInv(s) && RegDelta(s, s', c)
    ensures RegInv(s')
  {
    forall l1, l2, r: nat | RegAt(s', l1, r) && RegAt(s', l2, r) ensures l1 == l2 {
      assert RegAfter(s, c, l1, r) && RegAfter(s, c, l2, r);
    }
    forall l, r: nat | RegAt(s', l, r) ensures r < s'.regs {
      assert RegAfter(s, c, l, r);
    }
    forall r: nat | r < s'.regs ensures Located(s', r) {
      if c.RegNew? && r == s.regs {
        assert RegAt(s', c.at, r) <==> RegAfter(s, c, c.at, r);
      } else {
        assert Located(s, r);
        var l :| RegAt(s, l, r);
        var l' := if c.RegMoved? && r == c.r then c.to else l;
        assert RegAt(s', l', r) <==> RegAfter(s, c, l', r);
      }
    }
  }

  /** Off the table, the log grows only by entries that come from no registration. */
  predicate PlainLog(s: World, s': World) {
    || s'.log == s.log
    || (|s'.log| == |s.log| + 1 && s'.log[..|s.log|] == s.log && s'.log[|s.log|].reg == None)
  }

  lemma LoopLogStep(s: World, step: Step)
    requires Enabled(s, step) && (step.Acquire? || step.Skip? || step.Dequeue? || step.Settled?)
    ensures PlainLog(s, Apply(s, step))
  {
    hide Outstanding, Context, Eligible, Stopping, FdFree, MutexFree, Target, Dead;
  }

  lemma PlainLogStep(s: World, step: Step)
    requires Enabled(s, step) && !TableStep(step)
    ensures PlainLog(s, Apply(s, step))
  {
    if step.Acquire? || step.Skip? || step.Dequeue? || step.Settled? {
      hide Enabled, Apply;
      LoopLogStep(s, step);
    } else if step.Spawn? || step.Post? || step.WakeSelf? || step.RunWake? || step.Expire? {
      hide Outstanding, Context, Eligible, Stopping, FdFree, MutexFree, Target, Dead;
    } else {
      hide Enabled, Apply;
      ListFrame(s, step);
    }
  }

  lemma OffTableRegs(s: World, s': World)
    requires OffTable(s, s') && PlainLog(s, s')
    ensures RegDelta(s, s', RegSame)
  {
    forall l, r: nat ensures RegAt(s', l, r) <==> RegAt(s, l, r) {
      if l.LoggedAt? && l.i < |s.log| { assert s'.log[l.i] == s'.log[..|s.log|][l.i]; }
    }
  }

  lemma ArmedRegs(s: World, s': World, fd: nat, ev: Event, job: Job)
    requires TableInv(s) && FdFree(s, fd) && ev !in Context(s.table, fd).events
    requires |s.table.fds| >= 2 && AddMask(s.table, fd, ev).Some?
    requires s'.table == Armed(s.table, fd, ev, job, s.regs) && s'.log == s.log && s'.deleted == s.deleted
    requires s'.regs == s.regs + 1
    ensures RegDelta(s, s', RegNew(ArmedAt(fd, ev)))
  {
    FreeIsEmpty(s, fd);
    ArmedKeeps(s.table, fd, ev, job, s.regs);
    forall l, r: nat ensures RegAt(s', l, r) <==> RegAfter(s, RegNew(ArmedAt(fd, ev)), l, r) {
      if l.ArmedAt? && l.fd != fd { assert Context(s'.table, l.fd) == Context(s.table, l.fd); }
    }
  }

  lemma AddRegs(s: World, step: Step)
    requires TableInv(s) && Enabled(s, step) && (step.WaitEvent? || step.WatchEvent?)
    ensures RegDelta(s, Apply(s, step), RegNew(ArmedAt(step.fd, step.ev)))
  {
    hide TableInv, RegDelta, Outstanding, FdFree, Context, AddMask, Armed;
    var waiter := if step.WaitEvent? then FiberJob(s.workers[step.w].pc.f) else CbJob(Plain);
    ArmedRegs(s, Apply(s, step), step.fd, step.ev, waiter);
  }

  lemma DelRegs(s: World, w: nat, fd: nat, ev: Event)
    requires TableInv(s) && Enabled(s, DelEvent(w, fd, ev))
    ensures Context(s.table, fd).At(ev).Full?
    ensures RegDelta(s, Apply(s, DelEvent(w, fd, ev)),
              RegMoved(ArmedAt(fd, ev), DeletedOne, Context(s.table, fd).At(ev).reg))
  {
    assert SlotsOk(s.table.fds[fd]);
    var s' := Apply(s, DelEvent(w, fd, ev));
    var c := RegMoved(ArmedAt(fd, ev), DeletedOne, Context(s.table, fd).At(ev).reg);
    forall l, r: nat ensures RegAt(s', l, r) <==> RegAfter(s, c, l, r) {
      if l.ArmedAt? { DeletedSlot(s.table, fd, ev, l.fd, l.ev); }
    }
  }

  lemma TriggerRegs(s: World, w: nat) returns (from: RegLoc, r: nat)
    requires TableInv(s) && Enabled(s, Trigger(w))
    ensures RegDelta(s, Apply(s, Trigger(w)), RegMoved(from, LoggedAt(|s.log|), r))
  {
    var s' := Apply(s, Trigger(w));
    var Firing(fd, todo) := FiringOf(s.workers[w].pc);
    from, r := ArmedAt(fd, Next(todo)), s.table.fds[fd].At(Next(todo)).reg;
    var c := RegMoved(from, LoggedAt(|s.log|), r);
    forall l, r: nat ensures RegAt(s', l, r) <==> RegAfter(s, c, l, r) {
      if l.ArmedAt? { ClearedSlot(s.table, fd, Next(todo), l.fd, l.ev); }
    }
  }

  lemma FiringRegs(s: World, step: Step)
    requires Enabled(s, step) && (step.Cancel? || step.Deliver?)
    ensures RegDelta(s, Apply(s, step), RegSame)
  {
    var s' := Apply(s, step);
    assert s'.table.fds == s.table.fds;
    assert forall k: nat :: Context(s'.table, k) == Context(s.table, k);
  }

  lemma OffTableRegStep(s: World, step: Step)
    requires Enabled(s, step) && !TableStep(step)
    ensures RegDelta(s, Apply(s, step), RegSame)
  {
    hide Enabled, Apply, RegDelta;
    OffTableStep(s, step);
    PlainLogStep(s, step);
    OffTableRegs(s, Apply(s, step));
  }

  lemma RegOnTable(s: World, step: Step)
    requires TableInv(s) && RegInv(s) && Enabled(s, step) && TableStep(step) && !step.Cancel? && !step.Deliver?
    ensures RegInv(Apply(s, step))
  {
    hide Enabled, Apply, TableInv, RegInv, RegDelta;
    var s' := Apply(s, step);
    match step
    case WaitEvent(w, fd, ev) =>
      AddRegs(s, step);
      RegDeltaKeeps(s, s', RegNew(ArmedAt(fd, ev)));
    case WatchEvent(w, fd, ev) =>
      AddRegs(s, step);
      RegDeltaKeeps(s, s', RegNew(ArmedAt(fd, ev)));
    case DelEvent(w, fd, ev) =>
      DelRegs(s, w, fd, ev);
      RegDeltaKeeps(s, s', RegMoved(ArmedAt(fd, ev), DeletedOne, Context(s.table, fd).At(ev).reg));
    case Trigger(w) =>
      var from, r := TriggerRegs(s, w);
      RegDeltaKeeps(s, s', RegMoved(from, LoggedAt(|s.log|), r));
  }

  /** Every step keeps the account of registrations. */
  lemma RegStep(s: World, step: Step)
    requires TableInv(s) && RegInv(s) && Enabled(s, step)
    ensures RegInv(Apply(s, step))
  {
    hide Enabled, Apply, TableInv, RegInv, RegDelta;
    if step.Cancel? || step.Deliver? {
      FiringRegs(s, step);
      RegDeltaKeeps(s, Apply(s, step), RegSame);
    } else if TableStep(step) {
      RegOnTable(s, step);
    } else {
      OffTableRegStep(s, step);
      RegDeltaKeeps(s, Apply(s, step), RegSame);
    }
  }
}
