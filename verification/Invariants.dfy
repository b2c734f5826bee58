/** The inductive invariant of the interleaving, in independent parts. */
module Invariants {
  import opened Tasks
  import opened Wrappers
  import opened EventTable
  import opened World

  // ---------------------------------------------------------------- the task list

  /** The list keeps the order of the appends, and each entry is the one appended under its number. */
  predicate QueueOrdered(s: World) {
    && (forall k :: 0 <= k < |s.log| ==> s.log[k].serial == k)
    && (forall i :: 0 <= i < |s.queue| ==> s.queue[i].serial < |s.log| && s.queue[i] == s.log[s.queue[i].serial])
    && (forall i, j :: 0 <= i < j < |s.queue| ==> s.queue[i].serial < s.queue[j].serial)
  }

  predicate InList(q: seq<Entry>, k: nat) {
    exists i :: 0 <= i < |q| && q[i].serial == k
  }

  predicate InTaken(ts: seq<Take>, k: nat) {
    exists i :: 0 <= i < |ts| && ts[i].entry.serial == k
  }

  /** Every append is still listed or was dequeued once, by a worker it was meant for. */
  predicate Conserved(s: World) {
    && (forall k :: 0 <= k < |s.log| ==> (InList(s.queue, k) <==> !InTaken(s.taken, k)))
    && (forall i :: 0 <= i < |s.taken| ==>
          s.taken[i].entry.serial < |s.log| && s.taken[i].entry == s.log[s.taken[i].entry.serial])
    && (forall i, j :: 0 <= i < j < |s.taken| ==> s.taken[i].entry.serial != s.taken[j].entry.serial)
    && (forall i :: 0 <= i < |s.taken| ==> s.taken[i].entry.pin == -1 || s.taken[i].entry.pin == s.taken[i].worker)
  }

  /** Unpinned callbacks leave the list in the order of their appends. */
  predicate FirstInFirstOut(s: World) {
    && (forall i, j :: 0 <= i < j < |s.taken| && Free(s.taken[i].entry) && Free(s.taken[j].entry)
          ==> s.taken[i].entry.serial < s.taken[j].entry.serial)
    && (forall i, j :: 0 <= i < |s.taken| && 0 <= j < |s.queue| && Free(s.taken[i].entry) && Free(s.queue[j])
          ==> s.taken[i].entry.serial < s.queue[j].serial)
  }

  /** One scan at a time, and a scan never steps over an unpinned callback. */
  predicate ScansOk(s: World) {
    && (forall v, w :: 0 <= v < w < |s.workers| ==> !(s.workers[v].pc.Scan? && s.workers[w].pc.Scan?))
    && (forall w :: 0 <= w < |s.workers| && s.workers[w].pc.Scan? ==> s.workers[w].pc.i <= |s.queue|)
    && (forall w, k :: 0 <= w < |s.workers| && s.workers[w].pc.Scan? && 0 <= k < s.workers[w].pc.i && k < |s.queue|
          ==> !Free(s.queue[k]))
  }

  predicate QueueInv(s: World) {
    QueueOrdered(s) && Conserved(s) && FirstInFirstOut(s) && ScansOk(s)
  }

  // ---------------------------------------------------------------- starts of callbacks

  /** The worker holds a dequeued task and has not switched to its fiber yet. */
  predicate Holding(pc: Pc) {
    pc.Taken? || (pc.Prepared? && pc.cb)
  }

  /** A held task was taken by this worker, is not started, and comes after all the unpinned
      callbacks this worker started. */
  predicate HoldOk(s: World, w: nat)
    requires w < |s.workers|
  {
    Holding(s.workers[w].pc) ==>
      && s.workers[w].last.Some?
      && var e := s.workers[w].last.value;
      && Take(e, w) in s.taken
      && (s.workers[w].pc.Taken? ==> s.workers[w].pc.entry == e)
      && (s.workers[w].pc.Prepared? ==> e.job.CbJob?)
      && (forall i :: 0 <= i < |s.starts| ==> s.starts[i].entry.serial != e.serial)
      && (forall i :: 0 <= i < |s.starts| && s.starts[i].worker == w && Free(s.starts[i].entry) && Free(e)
            ==> s.starts[i].entry.serial < e.serial)
  }

  /** Every start is of a callback its worker took, no two are of the same entry, and each worker
      starts unpinned callbacks in the order of their appends. */
  predicate StartsOk(s: World) {
    && (forall i :: 0 <= i < |s.starts| ==>
          s.starts[i] in s.taken && s.starts[i].entry.job.CbJob? && s.starts[i].worker < |s.workers|)
    && (forall i, j :: 0 <= i < j < |s.starts| ==> s.starts[i].entry.serial != s.starts[j].entry.serial)
    && (forall i, j ::
          (0 <= i < j < |s.starts| && s.starts[i].worker == s.starts[j].worker
           && Free(s.starts[i].entry) && Free(s.starts[j].entry))
          ==> s.starts[i].entry.serial < s.starts[j].entry.serial)
  }

  /** The worker that took the entry still holds it. */
  predicate StillHeld(s: World, t: Take) {
    t.worker < |s.workers| && Holding(s.workers[t.worker].pc) && s.workers[t.worker].last == Some(t.entry)
  }

  /** Every callback that was taken is started or still held. */
  predicate TakenOk(s: World) {
    forall i :: 0 <= i < |s.taken| && s.taken[i].entry.job.CbJob? ==> s.taken[i] in s.starts || StillHeld(s, s.taken[i])
  }

  predicate StartInv(s: World) {
    StartsOk(s) && TakenOk(s) && forall w :: 0 <= w < |s.workers| ==> HoldOk(s, w)
  }

  // ---------------------------------------------------------------- the counters

  /** The worker holds a dequeued task. */
  predicate Busy(pc: Pc) {
    pc.Taken? || pc.Prepared? || pc.Running? || pc.Leaving? || pc.Returned?
  }

  function CountBusy(ws: seq<Worker>): nat {
    if ws == [] then 0 else (if Busy(ws[0].pc) then 1 else 0) + CountBusy(ws[1..])
  }

  function CountIdle(ws: seq<Worker>): nat {
    if ws == [] then 0 else (if ws[0].pc.Idle? then 1 else 0) + CountIdle(ws[1..])
  }

  predicate CountInv(s: World) {
    s.active == CountBusy(s.workers) && s.idle == CountIdle(s.workers)
  }

  // ---------------------------------------------------------------- the event table

  predicate Fires(pc: Pc, fd: nat, ev: Event) {
    FiringOf(pc).Firing? && FiringOf(pc).fd == fd && ev in FiringOf(pc).todo
  }

  predicate BeingFired(s: World, fd: nat, ev: Event) {
    exists w :: 0 <= w < |s.workers| && Fires(s.workers[w].pc, fd, ev)
  }

  /** The bits of fd that the holder of its lock has yet to trigger. */
  ghost function Todo(s: World, fd: nat): set<Event> {
    set ev: Event | BeingFired(s, fd, ev)
  }

  predicate LocksOk(s: World) {
    && (forall v, w ::
          (0 <= v < w < |s.workers| && FiringOf(s.workers[v].pc).Firing? && FiringOf(s.workers[w].pc).Firing?)
          ==> FiringOf(s.workers[v].pc).fd != FiringOf(s.workers[w].pc).fd)
    && (forall w :: 0 <= w < |s.workers| && FiringOf(s.workers[w].pc).Firing?
          ==> FiringOf(s.workers[w].pc).todo != {} && FiringOf(s.workers[w].pc).fd < |s.table.fds|)
  }

  ghost predicate TableInv(s: World) {
    && Consistent(s.table)
    && LocksOk(s)
    && (forall fd: nat :: KernelOk(s.table, fd, Todo(s, fd)))
  }

  // ---------------------------------------------------------------- registrations

  /** Where a registration can be: armed in a slot, turned into a queue entry, or deleted. */
  datatype RegLoc = ArmedAt(fd: nat, ev: Event) | LoggedAt(i: nat) | DeletedOne

  predicate RegAt(s: World, l: RegLoc, r: nat) {
    match l
    case ArmedAt(fd, ev) => Context(s.table, fd).At(ev).Full? && Context(s.table, fd).At(ev).reg == r
    case LoggedAt(i) => i < |s.log| && s.log[i].reg == Some(r)
    case DeletedOne => r in s.deleted
  }

  ghost predicate Located(s: World, r: nat) {
    exists l :: RegAt(s, l, r)
  }

  /** Every registration is at exactly one place. */
  ghost predicate RegInv(s: World) {
    && (forall l, r: nat :: RegAt(s, l, r) ==> r < s.regs)
    && (forall l1, l2, r: nat :: RegAt(s, l1, r) && RegAt(s, l2, r) ==> l1 == l2)
    && (forall r :: 0 <= r < s.regs ==> Located(s, r))
  }

  // ---------------------------------------------------------------- fibers and wake-ups

  /** No fiber has two wake-ups under way. */
  ghost predicate OneWake(s: World) {
    && (forall l1, l2, f: FiberId :: Holds(s, l1, f) && Holds(s, l2, f) ==> l1 == l2)
    && (forall l, f: FiberId :: Holds(s, l, f) ==> f < |s.fibers|)
  }

  /** No two workers are at the same fiber. */
  predicate Exclusive(s: World) {
    && |s.workers| >= 1
    && (forall w :: 0 <= w < |s.workers| && PcFiber(s.workers[w].pc).Some? ==>
          PcFiber(s.workers[w].pc).value < |s.fibers|)
    && (forall v, w :: 0 <= v < |s.workers| && 0 <= w < |s.workers| && v != w && PcFiber(s.workers[v].pc).Some?
          ==> PcFiber(s.workers[v].pc) != PcFiber(s.workers[w].pc))
  }

  /** No worker has dequeued f without having switched to it yet. */
  predicate NoHand(s: World, f: FiberId) {
    forall v :: 0 <= v < |s.workers| ==> !FiberHand(s.workers[v].pc, f)
  }

  ghost predicate Owed(s: World, f: FiberId) {
    Outstanding(s, f) || f in s.abandoned
  }

  /** What the program counter of a worker says about its fiber. */
  ghost predicate PcOk(s: World, w: nat)
    requires w < |s.workers|
  {
    var pc := s.workers[w].pc;
    PcFiber(pc).Some? ==>
      && pc.f < |s.fibers|
      && (pc.cb <==> s.workers[w].cbFiber == Some(pc.f))
      && var st := s.fibers[pc.f].state;
         if pc.Prepared? then
           if pc.cb then st == INIT && !Outstanding(s, pc.f) else st != EXEC && !Dead(st)
         else if pc.Running? then
           st == EXEC && NoHand(s, pc.f)
         else
           && (st == EXEC || st == READY || Dead(st))
           && (st == EXEC ==> NoHand(s, pc.f) && Owed(s, pc.f))
           && (st == READY ==> !Outstanding(s, pc.f))
           && (Dead(st) && pc.cb && pc.f !in s.untidy ==> !Outstanding(s, pc.f))
  }

  /** A callback fiber kept for reuse is INIT, owes nothing and is owed nothing. */
  ghost predicate CbFiberOk(s: World, w: nat)
    requires w < |s.workers|
  {
    s.workers[w].cbFiber.Some? ==>
      var c := s.workers[w].cbFiber.value;
      && c < |s.fibers|
      && (forall v :: 0 <= v < |s.workers| && v != w ==>
            s.workers[v].cbFiber != Some(c) && PcFiber(s.workers[v].pc) != Some(c))
      && (PcFiber(s.workers[w].pc) != Some(c) ==> s.fibers[c] == Fiber(INIT, Plain) && !Outstanding(s, c))
  }

  predicate AtFiber(s: World, w: nat, f: FiberId) {
    w < |s.workers| && PcFiber(s.workers[w].pc) == Some(f)
  }

  /** What a fiber's state says about who will resume it. */
  ghost predicate FiberOk(s: World, f: FiberId)
    requires f < |s.fibers|
  {
    var st := s.fibers[f].state;
    && (Dead(st) ==> s.fibers[f].code == Plain)
    && (st == EXEC ==> exists w :: AtFiber(s, w, f))
    && (st == HOLD || st == READY ==> Owed(s, f) || exists w :: AtFiber(s, w, f))
  }

  /** No callback owes a wake-up to the fiber it runs in. */
  predicate NoSelfWake(s: World) {
    forall f :: 0 <= f < |s.fibers| ==> s.fibers[f].code != Wake(f)
  }

  ghost predicate FiberInv(s: World) {
    && OneWake(s)
    && Exclusive(s)
    && (forall w :: 0 <= w < |s.workers| ==> PcOk(s, w))
    && (forall w :: 0 <= w < |s.workers| ==> CbFiberOk(s, w))
    && (forall f :: 0 <= f < |s.fibers| ==> FiberOk(s, f))
    && NoSelfWake(s)
  }

  /** The fiber part holds as long as no callback fiber was reset with a wake-up under way. */
  ghost predicate Inv(s: World) {
    && QueueInv(s) && StartInv(s) && CountInv(s) && TableInv(s) && RegInv(s)
    && (s.recycled == {} ==> FiberInv(s))
  }
}
