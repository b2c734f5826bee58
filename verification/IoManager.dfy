/** `IOManager` as the holder of a descriptor lock runs it: whole critical sections. */
module IoManager {
  import opened Tasks
  import opened Wrappers
  import opened EventTable
  import opened Scheduling

  /** The flags `epoll_wait` reports. */
  datatype Flag = IN | OUT | ERR | HUP

  datatype Delivery = Ignored | Refused | Delivered | AssertionFails

  /** The waiters of some events, READ first. */
  function Waiters(ctx: FdContext, gone: set<Event>): seq<Option<Job>> {
    (if READ in gone && ctx.read.Full? then [Some(ctx.read.job)] else [])
    + (if WRITE in gone && ctx.write.Full? then [Some(ctx.write.job)] else [])
  }

  class IOManager {
    var fds: seq<FdContext>
    var kernel: map<nat, set<Event>>
    var pending: int
    var regs: nat
    const sched: Scheduler

    constructor (sched: Scheduler)
      ensures Valid() && this.sched == sched && View() == Table(seq(32, _ => NO_WAITERS), map[], 0)
    {
      this.sched := sched;
      fds, kernel, pending, regs := seq(32, _ => NO_WAITERS), map[], 0, 0;
      new;
      BitsOfEmpty(fds, 0);
    }

    ghost function View(): Table
      reads this
    {
      Table(fds, kernel, pending)
    }

    /** Between critical sections: slots match bits, the count matches the bits, the kernel
        watches exactly the set bits. */
    ghost predicate Valid()
      reads this
    {
      Consistent(View()) && forall fd: nat :: KernelOk(View(), fd, {})
    }

    method EpollControl(op: Op, fd: nat, mask: set<Event>, refuse: bool) returns (rt: int)
      modifies this`kernel
      ensures rt == 0 || rt == -1
      ensures rt == 0 <==> !refuse && EpollCtl(old(kernel), op, fd, mask).Some?
      ensures kernel == if rt == 0 then EpollCtl(old(kernel), op, fd, mask).value else old(kernel)
    {
      if refuse || (op == ADD) == (fd in kernel) { return -1; }
      if op == DEL { kernel := kernel - {fd}; } else { kernel := kernel[fd := mask]; }
      return 0;
    }

    /** Returns 0 and arms the slot, or -1 when the kernel refuses for a reason of its own. */
    method AddEvent(fd: nat, ev: Event, job: Job, refuse: bool) returns (rc: int)
      requires Valid() && ev !in Context(View(), fd).events
      modifies this
      ensures Valid()
      ensures rc == if refuse then -1 else 0
      ensures rc == 0 ==>
                && AddMask(old(View()), fd, ev).Some? && fd < |Grown(old(fds), fd)|
                && View() == Armed(old(View()), fd, ev, job, old(regs))
      ensures rc == -1 ==> View() == old(View()).(fds := Grown(old(fds), fd))
      ensures regs == old(regs) + rc + 1
      ensures Context(old(View()), fd).At(ev) == Empty
      ensures |fds| == if fd < |old(fds)| then |old(fds)| else fd * 3 / 2
      ensures rc == 0 ==>
                && fd < |fds| && fds[fd].events == Context(old(View()), fd).events + {ev}
                && fds[fd].read == (if ev == READ then Full(job, old(regs)) else Context(old(View()), fd).read)
                && fds[fd].write == (if ev == WRITE then Full(job, old(regs)) else Context(old(View()), fd).write)
                && kernel == old(kernel)[fd := fds[fd].events] && pending == old(pending) + 1
    {
      ghost var t := View();
      assert KernelOk(t, fd, {});
      ArmedKeeps(t, fd, ev, job, regs);
      GrownKeeps(t, fd);
      AddAccepted(t, fd, ev);
      if fd >= |fds| { fds := Grown(fds, fd); }
      var ctx := fds[fd];
      assert ctx == Context(t, fd);
      var op := if ctx.events != {} then MOD else ADD;
      rc := EpollControl(op, fd, ctx.events + {ev}, refuse);
      if rc != 0 {
        assert forall k: nat :: KernelOk(t, k, {}) ==> KernelOk(View(), k, {});
        return;
      }
      pending := pending + 1;
      fds := fds[fd := ctx.(events := ctx.events + {ev}).With(ev, Full(job, regs))];
      regs := regs + 1;
      forall k: nat ensures KernelOk(View(), k, {}) {
        if k != fd { assert KernelOk(t, k, {}); }
      }
    }

    /** `triggerEvent` and the decrement that follows every call of it. */
    method Trigger(fd: nat, ev: Event)
      requires Consistent(View()) && fd < |fds| && ev in fds[fd].events
      modifies this, sched
      ensures old(fds[fd]).At(ev).Full?
      ensures View() == Cleared(old(View()), fd, ev) && regs == old(regs)
      ensures sched.fibers == old(sched.fibers) + [Entry(old(sched.serial), old(fds[fd]).At(ev).job, -1, None)]
      ensures sched.serial == old(sched.serial) + 1
    {
      assert SlotsOk(fds[fd]);
      var slot := fds[fd].At(ev);
      fds := fds[fd := fds[fd].(events := fds[fd].events - {ev})];
      var _ := sched.ScheduleNoLock(Some(slot.job), -1);
      fds := fds[fd := fds[fd].With(ev, Empty)];
      pending := pending - 1;
    }

    /** True when the bit was set and is now gone with its waiter, which is not queued. */
    method DelEvent(fd: nat, ev: Event, refuse: bool) returns (done: bool)
      requires Valid()
      modifies this
      ensures Valid() && regs == old(regs)
      ensures done <==> ev in Context(old(View()), fd).events && !refuse
      ensures done ==>
                && fd < |old(fds)| && DropMask(old(View()), fd, {ev}).Some?
                && View() == Deleted(old(View()), fd, ev)
      ensures !done ==> View() == old(View())
      ensures done ==>
                && |fds| == |old(fds)| && fds[fd].events == old(fds[fd]).events - {ev}
                && fds[fd].read == (if ev == READ then Empty else old(fds[fd]).read)
                && fds[fd].write == (if ev == WRITE then Empty else old(fds[fd]).write)
                && pending == old(pending) - 1
    {
      if fd >= |fds| || ev !in fds[fd].events { return false; }
      ghost var t := View();
      DeletedValid(t, fd, ev);
      hide Consistent, KernelOk;
      var left := fds[fd].events - {ev};
      var rt := EpollControl(if left != {} then MOD else DEL, fd, left, refuse);
      if rt != 0 { return false; }
      pending := pending - 1;
      fds := fds[fd := fds[fd].(events := left).With(ev, Empty)];
      return true;
    }

    /** Drop `gone` from the kernel's set, then trigger READ and WRITE in turn. */
    method Flush(fd: nat, gone: set<Event>, refuse: bool) returns (done: bool)
      requires Valid() && fd < |fds| && gone != {} && gone <= fds[fd].events
      modifies this, sched
      ensures Valid() && regs == old(regs)
      ensures done <==> !refuse
      ensures !done ==> View() == old(View()) && sched.fibers == old(sched.fibers)
      ensures done ==> DropMask(old(View()), fd, gone).Some? && View() == Flushed(old(View()), fd, gone)
      ensures done ==> sched.fibers == old(sched.fibers) + Entries(old(sched.serial), Waiters(old(fds[fd]), gone), -1)
    {
      ghost var t := View();
      FlushedValid(t, fd, gone);
      KernelApart(t, DropMask(t, fd, gone).value);
      hide Consistent, KernelOk, Entries, Waiters;
      var left := fds[fd].events - gone;
      var rt := EpollControl(if left != {} then MOD else DEL, fd, left, refuse);
      if rt != 0 { return false; }
      var ok := Fire(fd, gone);
      return true;
    }

    method CancelEvent(fd: nat, ev: Event, refuse: bool) returns (done: bool)
      requires Valid()
      modifies this, sched
      ensures Valid() && regs == old(regs)
      ensures done <==> ev in Context(old(View()), fd).events && !refuse
      ensures !done ==> View() == old(View()) && sched.fibers == old(sched.fibers)
      ensures done ==>
                && fd < |old(fds)| && DropMask(old(View()), fd, {ev}).Some?
                && View() == Flushed(old(View()), fd, {ev})
      ensures done ==> fd < |fds| && fds[fd].events == old(fds[fd]).events - {ev} && pending == old(pending) - 1
      ensures done ==>
                && old(fds[fd]).At(ev).Full?
                && sched.fibers == old(sched.fibers) + [Entry(old(sched.serial), old(fds[fd]).At(ev).job, -1, None)]
    {
      if fd >= |fds| || ev !in fds[fd].events { return false; }
      assert SlotsOk(fds[fd]);
      TwoEntries(sched.serial, fds[fd], {ev});
      FlushedKeeps(View(), fd, {ev});
      FlushedBits(View(), fd, {ev});
      done := Flush(fd, {ev}, refuse);
    }

    /** Ends with no bit set on the descriptor and every waiter queued. */
    method CancelAll(fd: nat, refuse: bool) returns (done: bool)
      requires Valid()
      modifies this, sched
      ensures Valid() && regs == old(regs)
      ensures done <==> Context(old(View()), fd).events != {} && !refuse
      ensures !done ==> View() == old(View()) && sched.fibers == old(sched.fibers)
      ensures done ==>
                && fd < |old(fds)| && DropMask(old(View()), fd, old(fds[fd]).events).Some?
                && View() == Flushed(old(View()), fd, old(fds[fd]).events)
      ensures done ==> fd < |fds| && fds[fd] == NO_WAITERS && pending == old(pending) - |old(fds[fd]).events|
      ensures done ==>
                var ctx, n := old(fds[fd]), old(sched.serial);
                && (ctx.read.Full? <==> READ in ctx.events) && (ctx.write.Full? <==> WRITE in ctx.events)
                && sched.fibers == old(sched.fibers)
                    + (if ctx.read.Full? then [Entry(n, ctx.read.job, -1, None)] else [])
                    + (if ctx.write.Full?
                       then [Entry(if ctx.read.Full? then n + 1 else n, ctx.write.job, -1, None)] else [])
    {
      if fd >= |fds| || fds[fd].events == {} { return false; }
      assert SlotsOk(fds[fd]);
      assert fds[fd].At(READ) == fds[fd].read && fds[fd].At(WRITE) == fds[fd].write;
      TwoEntries(sched.serial, fds[fd], fds[fd].events);
      FlushedKeeps(View(), fd, fds[fd].events);
      FlushedBits(View(), fd, fds[fd].events);
      done := Flush(fd, fds[fd].events, refuse);
      if done {
        assert fds[fd].At(READ) == Empty && fds[fd].At(WRITE) == Empty;
        assert fds[fd].events == {};
      }
    }

    /** `triggerEvent` with its assertion: when the bit is clear it fails and nothing changes. */
    method TryTrigger(fd: nat, ev: Event) returns (ok: bool)
      requires Consistent(View()) && fd < |fds|
      modifies this, sched
      ensures ok <==> ev in old(fds[fd]).events
      ensures ok ==> old(fds[fd]).At(ev).Full? && View() == Cleared(old(View()), fd, ev) && regs == old(regs)
      ensures ok ==>
                sched.fibers == old(sched.fibers) + [Entry(old(sched.serial), old(fds[fd]).At(ev).job, -1, None)]
      ensures ok ==> sched.serial == old(sched.serial) + 1
      ensures !ok ==> View() == old(View()) && regs == old(regs) && sched.fibers == old(sched.fibers)
    {
      if ev !in fds[fd].events { return false; }
      Trigger(fd, ev);
      return true;
    }

    /** READ, then WRITE, as far as the assertions hold: all of `seen` is triggered exactly when all of
        it is registered; otherwise only a registered READ is. */
    method Fire(fd: nat, seen: set<Event>) returns (ok: bool)
      requires Consistent(View()) && fd < |fds|
      modifies this, sched
      ensures ok <==> seen <= old(fds[fd]).events
      ensures regs == old(regs) && |fds| == |old(fds)|
      ensures var gone := if ok then seen else seen * {READ} * old(fds[fd]).events;
              && View() == ClearedIf(ClearedIf(old(View()), fd, READ, READ in gone), fd, WRITE, WRITE in gone)
              && sched.fibers == old(sched.fibers) + Entries(old(sched.serial), Waiters(old(fds[fd]), gone), -1)
    {
      ghost var ctx := fds[fd];
      assert SlotsOk(ctx);
      EventSets(seen);
      if READ in seen {
        if READ in fds[fd].events { ClearedKeeps(View(), fd, READ); }
        var done := TryTrigger(fd, READ);
        if !done {
          TwoEntries(sched.serial, ctx, {});
          return false;
        }
      }
      assert fds[fd].At(WRITE) == ctx.At(WRITE) && (WRITE in fds[fd].events <==> WRITE in ctx.events);
      TwoEntries(old(sched.serial), ctx, seen * ctx.events);
      if WRITE in seen {
        var done := TryTrigger(fd, WRITE);
        if !done {
          assert seen * ctx.events == seen * {READ} * ctx.events;
          return false;
        }
      }
      assert seen * ctx.events == seen;
      return true;
    }

    /** One element of the delivery loop of `idle`: EPOLLIN stands for READ, EPOLLOUT for WRITE, an error or a
        hang-up for both; ignore what is not registered, tell the kernel, trigger. The assertion of
        `triggerEvent` fails exactly when the report overlaps the registered events without being contained
        in them. Then the kernel has already forgotten the descriptor; a registered READ was queued before
        the WRITE assertion failed, while a registered WRITE is left in its slot with nobody watching. */
    method Deliver(fd: nat, flags: set<Flag>, refuse: bool) returns (out: Delivery)
      requires Valid() && fd < |fds|
      modifies this, sched
      ensures out != AssertionFails ==> Valid()
      ensures regs == old(regs) && |fds| == |old(fds)|
      ensures var seen := (if IN in flags || ERR in flags || HUP in flags then {READ} else {})
                          + (if OUT in flags || ERR in flags || HUP in flags then {WRITE} else {});
              var ctx, n := old(fds[fd]), old(sched.serial);
              && (out == Ignored <==> seen * ctx.events == {})
              && (out == Refused <==> seen * ctx.events != {} && refuse)
              && (out == Delivered <==> seen * ctx.events != {} && !refuse && seen <= ctx.events)
              && (out == AssertionFails <==> seen * ctx.events != {} && !refuse && !(seen <= ctx.events))
              && (out == Delivered ==>
                    && DropMask(old(View()), fd, seen).Some? && View() == Flushed(old(View()), fd, seen)
                    && fds[fd].events == ctx.events - seen && pending == old(pending) - |seen|
                    && fds[fd].read == (if READ in seen then Empty else ctx.read)
                    && fds[fd].write == (if WRITE in seen then Empty else ctx.write)
                    && (READ in seen ==> ctx.read.Full?) && (WRITE in seen ==> ctx.write.Full?)
                    && sched.fibers == old(sched.fibers)
                        + (if READ in seen then [Entry(n, ctx.read.job, -1, None)] else [])
                        + (if WRITE in seen
                           then [Entry(if READ in seen then n + 1 else n, ctx.write.job, -1, None)] else []))
      ensures out == AssertionFails ==>
                && fd !in kernel && kernel == old(kernel) - {fd}
                && (old(fds[fd]).events == {READ} ==>
                      && fds == old(fds)[fd := NO_WAITERS] && pending == old(pending) - 1
                      && old(fds[fd]).read.Full?
                      && sched.fibers == old(sched.fibers)
                          + [Entry(old(sched.serial), old(fds[fd]).read.job, -1, None)])
                && (old(fds[fd]).events != {READ} ==>
                      && old(fds[fd]).events == {WRITE} && fds == old(fds) && pending == old(pending)
                      && sched.fibers == old(sched.fibers))
      ensures out == Ignored || out == Refused ==> View() == old(View()) && sched.fibers == old(sched.fibers)
    {
      var wide := if ERR in flags || HUP in flags then flags + {IN, OUT} else flags;
      var seen := {};
      if IN in wide { seen := seen + {READ}; }
      if OUT in wide { seen := seen + {WRITE}; }
      assert seen == (if IN in flags || ERR in flags || HUP in flags then {READ} else {})
                     + (if OUT in flags || ERR in flags || HUP in flags then {WRITE} else {});
      hide Consistent, KernelOk, DropMask, Flushed, Waiters, Entries;
      if fds[fd].events * seen == {} { return Ignored; }
      out := Notify(fd, seen, refuse);
    }

    /** The part of delivery that follows the mask. */
    method Notify(fd: nat, seen: set<Event>, refuse: bool) returns (out: Delivery)
      requires Valid() && fd < |fds| && seen * fds[fd].events != {}
      modifies this, sched
      ensures out != AssertionFails ==> Valid()
      ensures regs == old(regs) && |fds| == |old(fds)|
      ensures out == if refuse then Refused else if seen <= old(fds[fd]).events then Delivered else AssertionFails
      ensures out == Refused ==> View() == old(View()) && sched.fibers == old(sched.fibers)
      ensures out == AssertionFails ==>
                && fd !in kernel && kernel == old(kernel) - {fd}
                && (old(fds[fd]).events == {READ} ==>
                      && fds == old(fds)[fd := NO_WAITERS] && pending == old(pending) - 1
                      && old(fds[fd]).read.Full?
                      && sched.fibers == old(sched.fibers)
                          + [Entry(old(sched.serial), old(fds[fd]).read.job, -1, None)])
                && (old(fds[fd]).events != {READ} ==>
                      && old(fds[fd]).events == {WRITE} && fds == old(fds) && pending == old(pending)
                      && sched.fibers == old(sched.fibers))
      ensures out == Delivered ==>
                && DropMask(old(View()), fd, seen).Some? && View() == Flushed(old(View()), fd, seen)
                && fds[fd].events == old(fds[fd]).events - seen
                && pending == old(pending) - |seen|
      ensures out == Delivered ==>
                var ctx, n := old(fds[fd]), old(sched.serial);
                && fds[fd].read == (if READ in seen then Empty else ctx.read)
                && fds[fd].write == (if WRITE in seen then Empty else ctx.write)
                && (READ in seen ==> ctx.read.Full?) && (WRITE in seen ==> ctx.write.Full?)
                && sched.fibers == old(sched.fibers)
                    + (if READ in seen then [Entry(n, ctx.read.job, -1, None)] else [])
                    + (if WRITE in seen
                       then [Entry(if READ in seen then n + 1 else n, ctx.write.job, -1, None)] else [])
    {
      hide Consistent, KernelOk, ClearedIf, Waiters, Entries;
      ghost var t := View();
      var left := fds[fd].events - seen;
      DeliveryDrops(t, fd, seen);
      var rt2 := EpollControl(if left != {} then MOD else DEL, fd, left, refuse);
      if rt2 != 0 { return Refused; }
      KernelApart(t, kernel);
      var ok := Fire(fd, seen);
      if !ok {
        if t.fds[fd].events == {READ} { QueuedWaiters(t, fd, {READ}, old(sched.serial)); }
        FailedDelivery(t.(kernel := t.kernel - {fd}), fd, seen);
        NobodyWaits(t.fds[fd], old(sched.serial));
        return AssertionFails;
      }
      FlushedValid(t, fd, seen);
      QueuedWaiters(t, fd, seen, old(sched.serial));
      return Delivered;
    }
  }

  /** What a delivery of registered events leaves in the slots, and what it queues. */
  lemma QueuedWaiters(t: Table, fd: nat, seen: set<Event>, serial: nat)
    requires Consistent(t) && fd < |t.fds| && KernelOk(t, fd, {}) && seen != {} && seen <= t.fds[fd].events
    ensures var ctx := t.fds[fd];
            && (READ in seen ==> ctx.read.Full?) && (WRITE in seen ==> ctx.write.Full?)
            && DropMask(t, fd, seen).Some?
            && Flushed(t, fd, seen).fds[fd].read == (if READ in seen then Empty else ctx.read)
            && Flushed(t, fd, seen).fds[fd].write == (if WRITE in seen then Empty else ctx.write)
            && Entries(serial, Waiters(ctx, seen), -1)
                == (if READ in seen then [Entry(serial, ctx.read.job, -1, None)] else [])
                    + (if WRITE in seen
                       then [Entry(if READ in seen then serial + 1 else serial, ctx.write.job, -1, None)] else [])
  {
    hide Consistent, KernelOk, DropMask, Flushed, Waiters, Entries;
    FlushedKeeps(t, fd, seen);
    RegisteredWait(t, fd, seen);
    TwoEntries(serial, t.fds[fd], seen);
    var t' := Flushed(t, fd, seen);
    assert t'.fds[fd].read == t'.fds[fd].At(READ) && t'.fds[fd].write == t'.fds[fd].At(WRITE);
  }

  lemma RegisteredWait(t: Table, fd: nat, seen: set<Event>)
    requires Consistent(t) && fd < |t.fds| && seen <= t.fds[fd].events
    ensures forall e :: e in seen ==> t.fds[fd].At(e).Full?
  {
    assert SlotsOk(t.fds[fd]);
  }

  /** The kernel's set is no part of the table's own consistency. */
  lemma KernelApart(t: Table, kernel: map<nat, set<Event>>)
    requires Consistent(t)
    ensures Consistent(t.(kernel := kernel))
  {
  }

  lemma NobodyWaits(ctx: FdContext, serial: nat)
    ensures Entries(serial, Waiters(ctx, {}), -1) == []
  {
  }

  lemma DeletedValid(t: Table, fd: nat, ev: Event)
    requires Consistent(t) && (forall k: nat :: KernelOk(t, k, {})) && fd < |t.fds| && ev in t.fds[fd].events
    ensures DropMask(t, fd, {ev}).Some?
    ensures Consistent(Deleted(t, fd, ev)) && forall k: nat :: KernelOk(Deleted(t, fd, ev), k, {})
  {
    assert KernelOk(t, fd, {});
    DeletedKeeps(t, fd, ev);
    forall k: nat ensures KernelOk(Deleted(t, fd, ev), k, {}) {
      if k != fd { assert KernelOk(t, k, {}); }
    }
  }

  /** A whole section on a valid table leaves a valid table. */
  lemma FlushedValid(t: Table, fd: nat, gone: set<Event>)
    requires Consistent(t) && (forall k: nat :: KernelOk(t, k, {})) && fd < |t.fds| && gone != {}
    requires gone <= t.fds[fd].events
    ensures DropMask(t, fd, gone).Some?
    ensures var t' := Flushed(t, fd, gone);
            && Consistent(t') && (forall k: nat :: KernelOk(t', k, {})) && |t'.fds| == |t.fds|
            && t'.fds[fd].events == t.fds[fd].events - gone && t'.pending == t.pending - |gone|
  {
    hide Consistent, KernelOk, DropMask, Flushed;
    assert KernelOk(t, fd, {});
    FlushedKeeps(t, fd, gone);
    FlushedBits(t, fd, gone);
    forall k: nat ensures KernelOk(Flushed(t, fd, gone), k, {}) {
      if k != fd { KernelElsewhere(t, fd, gone, k); }
    }
  }

  /** What delivery asks of the kernel is accepted. */
  lemma DeliveryDrops(t: Table, fd: nat, seen: set<Event>)
    requires Consistent(t) && fd < |t.fds| && KernelOk(t, fd, {}) && seen * t.fds[fd].events != {}
    ensures DropMask(t, fd, seen).Some? && SlotsOk(t.fds[fd])
    ensures !(seen <= t.fds[fd].events) ==> DropMask(t, fd, seen).value == t.kernel - {fd}
  {
    var gone := seen * t.fds[fd].events;
    assert t.fds[fd].events - seen == t.fds[fd].events - gone;
    DropAccepted(t, fd, gone);
    EventSets(seen);
    EventSets(t.fds[fd].events);
  }

  /** What a delivery leaves when its assertion fails. */
  lemma FailedDelivery(t: Table, fd: nat, seen: set<Event>)
    requires fd < |t.fds| && SlotsOk(t.fds[fd]) && seen * t.fds[fd].events != {} && !(seen <= t.fds[fd].events)
    ensures var gone := seen * {READ} * t.fds[fd].events;
            var t' := ClearedIf(ClearedIf(t, fd, READ, READ in gone), fd, WRITE, WRITE in gone);
            && t'.kernel == t.kernel
            && (t.fds[fd].events == {READ} ==>
                  gone == {READ} && t'.fds == t.fds[fd := NO_WAITERS] && t'.pending == t.pending - 1)
            && (t.fds[fd].events != {READ} ==>
                  t.fds[fd].events == {WRITE} && gone == {} && t' == t)
  {
    EventSets(seen);
    EventSets(t.fds[fd].events);
    var ctx := t.fds[fd];
    if ctx.events == {READ} {
      assert READ in ctx.events && WRITE !in ctx.events;
      assert ctx.At(WRITE) == Empty;
      assert seen * {READ} * ctx.events == {READ};
      assert ctx.events - {READ} == {};
    }
  }

  /** A reader waits on a descriptor and the peer hangs up: the reader is queued, then the assertion for
      WRITE fails. */
  method HangUpOnReader(job: Job) returns (out: Delivery, queued: seq<Entry>)
    ensures out == AssertionFails && queued == [Entry(0, job, -1, None)]
  {
    var sched := new Scheduler();
    var io := new IOManager(sched);
    var rc := io.AddEvent(3, READ, job, false);
    out := io.Deliver(3, {HUP}, false);
    queued := sched.fibers;
  }

  /** The entries of the waiters of some events: READ's first, then WRITE's, unpinned. */
  lemma TwoEntries(serial: nat, ctx: FdContext, gone: set<Event>)
    requires forall e :: e in gone ==> ctx.At(e).Full?
    ensures READ in gone ==> ctx.read.Full?
    ensures WRITE in gone ==> ctx.write.Full?
    ensures Entries(serial, Waiters(ctx, gone), -1)
         == (if READ in gone then [Entry(serial, ctx.read.job, -1, None)] else [])
          + (if WRITE in gone
             then [Entry(if READ in gone then serial + 1 else serial, ctx.write.job, -1, None)] else [])
  {
    assert READ in gone ==> ctx.At(READ).Full?;
    assert WRITE in gone ==> ctx.At(WRITE).Full?;
    if READ in gone && WRITE in gone {
      var r := [Some(ctx.read.job)];
      EntriesSnoc(serial, r, Some(ctx.write.job), -1);
      assert r[1..] == [];
    }
  }

  lemma KernelElsewhere(t: Table, fd: nat, gone: set<Event>, k: nat)
    requires Consistent(t) && fd < |t.fds| && KernelOk(t, fd, {}) && gone != {} && gone <= t.fds[fd].events
    requires KernelOk(t, k, {}) && k != fd
    ensures DropMask(t, fd, gone).Some? && KernelOk(Flushed(t, fd, gone), k, {})
  {
    FlushedKeeps(t, fd, gone);
    var t' := Flushed(t, fd, gone);
    assert k in t'.kernel - {fd} <==> k in t'.kernel;
    assert k in t.kernel - {fd} <==> k in t.kernel;
    hide Flushed, DropMask, Consistent;
  }
}
