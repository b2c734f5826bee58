/** The interleaving of N workers running `Scheduler::run` over one task list, with the fibers
    they switch to, the event table those fibers park in, and the timers.

    A step is one atomic action: a critical section of the scheduler mutex is several steps during
    which no one else may touch the list (the program counter `Scan` is the mutex), and a critical
    section of a descriptor lock that triggers waiters is several steps during which no one else
    may touch that descriptor (the `Firing` part of a program counter is that lock). */
module World {
  import opened Sequences
  import opened Tasks
  import opened Wrappers
  import opened EventTable

  /** The events of `fd` still to be triggered by the holder of its lock. */
  datatype Firing = Quiet | Firing(fd: nat, todo: set<Event>)

  /** Where a worker is in `Scheduler::run`; `cb` tells the callback branch from the fiber branch. */
  datatype Pc =
    | Top                                               // before taking the mutex
    | Scan(i: nat)                                      // holds the mutex, iterator at index i
    | Taken(entry: Entry)                               // dequeued, mutex released
    | Prepared(f: FiberId, cb: bool)                    // about to call swapIn
    | Running(f: FiberId, cb: bool, fire: Firing)       // the fiber has the thread
    | Leaving(f: FiberId, cb: bool)                     // the fiber wrote its state, about to swapOut
    | Returned(f: FiberId, cb: bool)                    // swapIn returned
    | Settle(f: FiberId, cb: bool)                      // active count dropped, state not yet inspected
    | Idle(fire: Firing)                                // inside the idle fiber
    | Exited

  /** `last` is the task the worker dequeued last. The last two fields belong to its idle fiber: the
      readiness reports that `epoll_wait` returned and that are not yet acted on, and how many of the
      first two questions of `IOManager::stopping` (no timer? nothing pending?) were answered yes. */
  datatype Worker = Worker(
    pc: Pc,
    cbFiber: Option<FiberId>,
    idleDone: bool,
    last: Option<Entry>,
    held: map<nat, set<Event>>,
    asked: nat)

  datatype Fiber = Fiber(state: FiberState, code: Code)

  datatype Take = Take(entry: Entry, worker: nat)

  /** `aborted` is set when an assertion failed. The last eight fields are history: every entry ever
      appended; every entry ever dequeued and every callback ever started, with its worker; the number
      of registrations; those removed by `delEvent`; the fibers whose wake-up was destroyed (`delEvent`,
      `Timer::cancel`, a callback that ended without running); the callback fibers whose last callback
      ended while a wake-up for them was under way; and those that were reset for reuse while one was. */
  datatype World = World(
    workers: seq<Worker>,
    fibers: seq<Fiber>,
    queue: seq<Entry>,
    active: int,
    idle: int,
    table: Table,
    timers: map<nat, Code>,
    autoStop: bool,
    stopping: bool,
    aborted: bool,
    log: seq<Entry>,
    taken: seq<Take>,
    starts: seq<Take>,
    regs: nat,
    deleted: set<nat>,
    abandoned: set<FiberId>,
    untidy: set<FiberId>,
    recycled: set<FiberId>)

  // ---------------------------------------------------------------- wake-ups

  /** A place that can hold a wake-up. */
  datatype Loc =
    | InQueue(serial: nat)
    | InSlot(fd: nat, ev: Event)
    | InTimer(id: nat)
    | InFiber(c: FiberId)
    | InHand(w: nat)

  predicate QueueHolds(q: seq<Entry>, serial: nat, f: FiberId) {
    exists i :: 0 <= i < |q| && q[i].serial == serial && Target(q[i].job) == Some(f)
  }

  /** The worker has dequeued fiber f and has not switched to it yet. */
  predicate FiberHand(pc: Pc, f: FiberId) {
    (pc.Taken? && pc.entry.job == FiberJob(f)) || pc == Prepared(f, false)
  }

  predicate HandHolds(pc: Pc, f: FiberId) {
    (pc.Taken? && Target(pc.entry.job) == Some(f)) || pc == Prepared(f, false)
  }

  predicate Holds(s: World, l: Loc, f: FiberId) {
    match l
    case InQueue(k) => QueueHolds(s.queue, k, f)
    case InSlot(fd, ev) => Context(s.table, fd).At(ev).Full? && Target(Context(s.table, fd).At(ev).job) == Some(f)
    case InTimer(id) => id in s.timers && s.timers[id] == Wake(f)
    case InFiber(c) => c < |s.fibers| && s.fibers[c].code == Wake(f)
    case InHand(w) => w < |s.workers| && HandHolds(s.workers[w].pc, f)
  }

  /** Some wake-up for f is under way. */
  ghost predicate Outstanding(s: World, f: FiberId) {
    exists l :: Holds(s, l, f)
  }

  // ---------------------------------------------------------------- helpers

  function SetPc(s: World, w: nat, pc: Pc): World
    requires w < |s.workers|
  {
    s.(workers := s.workers[w := s.workers[w].(pc := pc)])
  }

  function SetFiber(s: World, f: FiberId, fb: Fiber): World
    requires f < |s.fibers|
  {
    s.(fibers := s.fibers[f := fb])
  }

  function SetState(s: World, f: FiberId, st: FiberState): World
    requires f < |s.fibers|
  {
    SetFiber(s, f, s.fibers[f].(state := st))
  }

  /** `scheduleNoLock`: append at the end. */
  function Append(s: World, job: Job, pin: int, reg: Option<nat>): World {
    var e := Entry(|s.log|, job, pin, reg);
    s.(queue := s.queue + [e], log := s.log + [e])
  }

  function Lost(s: World, t: Option<FiberId>): World {
    if t.Some? then s.(abandoned := s.abandoned + {t.value}) else s
  }

  function PcFiber(pc: Pc): Option<FiberId> {
    if pc.Prepared? || pc.Running? || pc.Leaving? || pc.Returned? || pc.Settle? then Some(pc.f) else None
  }

  function FiringOf(pc: Pc): Firing {
    if pc.Running? || pc.Idle? then pc.fire else Quiet
  }

  function WithFiring(pc: Pc, fire: Firing): Pc
    requires pc.Running? || pc.Idle?
  {
    pc.(fire := fire)
  }

  predicate MutexFree(s: World) {
    forall w :: 0 <= w < |s.workers| ==> !s.workers[w].pc.Scan?
  }

  predicate FdFree(s: World, fd: nat) {
    forall w :: 0 <= w < |s.workers| && FiringOf(s.workers[w].pc).Firing? ==> FiringOf(s.workers[w].pc).fd != fd
  }

  /** Worker w may take the entry. */
  predicate Eligible(s: World, w: nat, e: Entry) {
    Takeable(e, w, e.job.FiberJob? && e.job.fiber < |s.fibers| && s.fibers[e.job.fiber].state == EXEC)
  }

  /** `Scheduler::stopping`. */
  predicate Stopping(s: World) {
    s.autoStop && s.stopping && s.queue == [] && s.active == 0
  }

  predicate RunningQuiet(s: World, w: nat) {
    w < |s.workers| && s.workers[w].pc.Running? && s.workers[w].pc.fire == Quiet && s.workers[w].pc.f < |s.fibers|
  }

  predicate OnFiber(s: World, w: nat) {
    w < |s.workers| && PcFiber(s.workers[w].pc).Some? && PcFiber(s.workers[w].pc).value < |s.fibers|
  }

  // ---------------------------------------------------------------- steps

  datatype Step =
    | Acquire(w: nat)
    | Skip(w: nat)
    | Dequeue(w: nat)
    | ScanEnd(w: nat)
    | Branch(w: nat)
    | SwapIn(w: nat)
    | YieldToHold(w: nat)
    | YieldToReady(w: nat)
    | Finish(w: nat, thrown: bool)
    | SwapOut(w: nat)
    | Release(w: nat)
    | Settled(w: nat)
    | Spawn(pin: int)
    | Post(pin: int)
    | WakeSelf(w: nat, pin: int)
    | SleepSelf(w: nat, id: nat)
    | RunWake(w: nat)
    | PlainTimer(id: nat)
    | DropTimer(id: nat)
    | Expire(w: nat, id: nat)
    | WaitEvent(w: nat, fd: nat, ev: Event)
    | WatchEvent(w: nat, fd: nat, ev: Event)
    | DelEvent(w: nat, fd: nat, ev: Event)
    | Cancel(w: nat, fd: nat, gone: set<Event>)
    | Deliver(w: nat, fd: nat, seen: set<Event>)
    | Trigger(w: nat)
    | Idling(w: nat, note: Note)
    | Fail(w: nat, fd: nat)
    | LeaveIdle(w: nat)
    | ExitIdle(w: nat)
    | Stop

  /** What an idle fiber learns: a readiness report, that a report is out of date, or the answers of
      `IOManager::stopping`, which ask in turn for timers and for pending events; after a no it goes on. */
  datatype Note = Report(fd: nat, seen: set<Event>) | Ignore(fd: nat) | NoTimers | NoPending | GoOn

  /** Steps of the loop in `run` itself. */
  predicate LoopStep(step: Step) {
    || step.Acquire? || step.Skip? || step.Dequeue? || step.ScanEnd?
    || step.Branch? || step.SwapIn? || step.Release? || step.Settled?
  }

  /** Steps of the code a fiber runs, and of the fiber switching out. */
  predicate CodeStep(step: Step) {
    || step.YieldToHold? || step.YieldToReady? || step.Finish? || step.SwapOut?
    || step.WakeSelf? || step.SleepSelf? || step.RunWake?
  }

  /** Steps on the event table. */
  predicate TableStep(step: Step) {
    step.WaitEvent? || step.WatchEvent? || step.DelEvent? || step.Cancel? || step.Deliver? || step.Trigger?
  }

  /** The event triggered next: READ before WRITE. */
  function Next(todo: set<Event>): (ev: Event)
    ensures todo != {} ==> ev in todo
  {
    assert forall e :: e in todo ==> e == READ || e == WRITE;
    if READ in todo then READ else WRITE
  }

  predicate At(s: World, w: nat) { w < |s.workers| }

  predicate CanBranch(s: World, w: nat) {
    && At(s, w) && s.workers[w].pc.Taken?
    && (s.workers[w].pc.entry.job.FiberJob? ==> s.workers[w].pc.entry.job.fiber < |s.fibers|)
    && (s.workers[w].cbFiber.Some? ==> s.workers[w].cbFiber.value < |s.fibers|)
  }

  predicate TriggerReady(s: World, w: nat) {
    && At(s, w) && FiringOf(s.workers[w].pc).Firing?
    && var fire := FiringOf(s.workers[w].pc);
    && fire.todo != {} && fire.fd < |s.table.fds| && s.table.fds[fire.fd].At(Next(fire.todo)).Full?
  }

  /** Worker w holds a report about fd and may take the descriptor's lock. */
  predicate HasReport(s: World, w: nat, fd: nat) {
    At(s, w) && s.workers[w].pc == Idle(Quiet) && fd in s.workers[w].held && FdFree(s, fd)
  }

  /** epoll reports watched descriptors only; it names watched events, or both on an error or a hang-up. */
  predicate CanIdle(s: World, w: nat, note: Note) {
    && At(s, w) && s.workers[w].pc == Idle(Quiet)
    && match note
       case Report(fd, seen) =>
         && s.workers[w].asked == 0 && fd !in s.workers[w].held && seen != {}
         && fd in s.table.kernel && (seen <= s.table.kernel[fd] || seen == {READ, WRITE})
       case Ignore(fd) => HasReport(s, w, fd) && s.workers[w].held[fd] * Context(s.table, fd).events == {}
       case NoTimers => s.workers[w].held == map[] && s.workers[w].asked == 0 && s.timers == map[]
       case NoPending => s.workers[w].asked == 1 && s.table.pending == 0
       case GoOn => s.workers[w].asked > 0
  }

  /** The held report overlaps the registered events without being contained in them. */
  predicate CanFail(s: World, w: nat, fd: nat) {
    && HasReport(s, w, fd)
    && s.workers[w].held[fd] * Context(s.table, fd).events != {}
    && !(s.workers[w].held[fd] <= Context(s.table, fd).events)
  }

  ghost predicate Enabled(s: World, step: Step) {
    !s.aborted && Possible(s, step)
  }

  ghost predicate Possible(s: World, step: Step) {
    match step
    case Acquire(w) => At(s, w) && s.workers[w].pc == Top && MutexFree(s)
    case Skip(w) =>
      && At(s, w) && s.workers[w].pc.Scan? && s.workers[w].pc.i < |s.queue|
      && !Eligible(s, w, s.queue[s.workers[w].pc.i])
    case Dequeue(w) =>
      && At(s, w) && s.workers[w].pc.Scan? && s.workers[w].pc.i < |s.queue|
      && Eligible(s, w, s.queue[s.workers[w].pc.i])
    case ScanEnd(w) => At(s, w) && s.workers[w].pc.Scan? && s.workers[w].pc.i == |s.queue|
    case Branch(w) => CanBranch(s, w)
    case SwapIn(w) => OnFiber(s, w) && s.workers[w].pc.Prepared?
    // A fiber parks only after arranging a wake-up (which someone may have destroyed since).
    case YieldToHold(w) => RunningQuiet(s, w) && (Outstanding(s, s.workers[w].pc.f) || s.workers[w].pc.f in s.abandoned)
    // A fiber that asks to be requeued has no wake-up under way.
    case YieldToReady(w) => RunningQuiet(s, w) && !Outstanding(s, s.workers[w].pc.f)
    case Finish(w, thrown) => RunningQuiet(s, w)
    case SwapOut(w) => OnFiber(s, w) && s.workers[w].pc.Leaving?
    case Release(w) => OnFiber(s, w) && s.workers[w].pc.Returned?
    case Settled(w) =>
      && OnFiber(s, w) && s.workers[w].pc.Settle?
      && (s.fibers[s.workers[w].pc.f].state == READY ==> MutexFree(s))
    case Spawn(pin) => MutexFree(s)
    case Post(pin) => MutexFree(s)
    // A fiber arranges a wake-up for itself only while running and only with none under way.
    case WakeSelf(w, pin) => RunningQuiet(s, w) && MutexFree(s) && !Outstanding(s, s.workers[w].pc.f)
    case SleepSelf(w, id) => RunningQuiet(s, w) && id !in s.timers && !Outstanding(s, s.workers[w].pc.f)
    case RunWake(w) => RunningQuiet(s, w) && MutexFree(s) && s.fibers[s.workers[w].pc.f].code.Wake?
    case PlainTimer(id) => id !in s.timers
    case DropTimer(id) => id in s.timers
    case Expire(w, id) =>
      At(s, w) && s.workers[w].pc == Idle(Quiet) && s.workers[w].asked == 0 && id in s.timers && MutexFree(s)
    case WaitEvent(w, fd, ev) =>
      && RunningQuiet(s, w) && FdFree(s, fd) && |s.table.fds| >= 2 && ev !in Context(s.table, fd).events
      && AddMask(s.table, fd, ev).Some? && !Outstanding(s, s.workers[w].pc.f)
    case WatchEvent(w, fd, ev) =>
      && RunningQuiet(s, w) && FdFree(s, fd) && |s.table.fds| >= 2 && ev !in Context(s.table, fd).events
      && AddMask(s.table, fd, ev).Some?
    case DelEvent(w, fd, ev) =>
      RunningQuiet(s, w) && FdFree(s, fd) && ev in Context(s.table, fd).events && DropMask(s.table, fd, {ev}).Some?
    // cancelEvent (one bit, also the time-out of do_io) and cancelAll (every bit)
    case Cancel(w, fd, gone) =>
      && RunningQuiet(s, w) && FdFree(s, fd) && gone != {} && gone <= Context(s.table, fd).events
      && DropMask(s.table, fd, gone).Some?
    case Deliver(w, fd, seen) =>
      && HasReport(s, w, fd) && s.workers[w].held[fd] == seen && seen != {}
      && seen <= Context(s.table, fd).events && DropMask(s.table, fd, seen).Some?
    case Trigger(w) => MutexFree(s) && TriggerReady(s, w)
    case Idling(w, note) => CanIdle(s, w, note)
    // the assertion of triggerEvent
    case Fail(w, fd) => CanFail(s, w, fd)
    case LeaveIdle(w) =>
      At(s, w) && s.workers[w].pc == Idle(Quiet) && s.workers[w].held == map[] && s.workers[w].asked == 0
    case ExitIdle(w) =>
      At(s, w) && s.workers[w].pc == Idle(Quiet) && s.workers[w].asked == 2 && MutexFree(s) && Stopping(s)
    case Stop => true
  }

  // ---- the loop of run

  function DoDequeue(s: World, w: nat): World
    requires At(s, w) && s.workers[w].pc.Scan? && s.workers[w].pc.i < |s.queue|
  {
    var e := s.queue[s.workers[w].pc.i];
    s.(workers := s.workers[w := s.workers[w].(pc := Taken(e), last := Some(e))],
        queue := Erase(s.queue, s.workers[w].pc.i), active := s.active + 1, taken := s.taken + [Take(e, w)])
  }

  function DoScanEnd(s: World, w: nat): World
    requires At(s, w)
  {
    if s.workers[w].idleDone then SetPc(s, w, Exited) else SetPc(s, w, Idle(Quiet)).(idle := s.idle + 1)
  }

  function DoBranchFiber(s: World, w: nat, f: FiberId): (s': World)
    requires At(s, w) && f < |s.fibers|
    ensures |s'.workers| == |s.workers| && s' == s.(workers := s.workers[w := s'.workers[w]], active := s'.active)
    ensures !s'.workers[w].pc.Scan? && FiringOf(s'.workers[w].pc) == Quiet
  {
    if Dead(s.fibers[f].state) then SetPc(s, w, Top).(active := s.active - 1)
    else SetPc(s, w, Prepared(f, false))
  }

  /** Reuse the worker's callback fiber, or make one. */
  function DoBranchCb(s: World, w: nat, code: Code): (s': World)
    requires At(s, w) && (s.workers[w].cbFiber.Some? ==> s.workers[w].cbFiber.value < |s.fibers|)
    ensures |s'.workers| == |s.workers| && s' == s.(workers := s.workers[w := s'.workers[w]], fibers := s'.fibers)
    ensures |s.fibers| <= |s'.fibers| && s'.workers[w].pc.Prepared?
    ensures s'.workers[w] == s.workers[w].(pc := s'.workers[w].pc, cbFiber := s'.workers[w].cbFiber)
  {
    if s.workers[w].cbFiber.Some? then
      var c := s.workers[w].cbFiber.value;
      SetPc(SetFiber(s, c, Fiber(INIT, code)), w, Prepared(c, true))
    else
      var c := |s.fibers|;
      s.(fibers := s.fibers + [Fiber(INIT, code)],
         workers := s.workers[w := s.workers[w].(pc := Prepared(c, true), cbFiber := Some(c))])
  }

  function DoBranch(s: World, w: nat): World
    requires CanBranch(s, w)
  {
    match s.workers[w].pc.entry.job
    case FiberJob(f) => DoBranchFiber(s, w, f)
    case CbJob(code) => DoBranchCb(s, w, code)
  }

  /** What the loop does with the fiber it got back. */
  function DoSettled(s: World, w: nat): (s': World)
    requires OnFiber(s, w) && s.workers[w].pc.Settle?
    ensures |s'.workers| == |s.workers| && |s'.fibers| == |s.fibers|
    ensures s'.workers[w] == s.workers[w].(pc := Top, cbFiber := s'.workers[w].cbFiber)
    ensures s' == s.(workers := s.workers[w := s'.workers[w]], fibers := s'.fibers, queue := s'.queue, log := s'.log)
  {
    var f, cb := s.workers[w].pc.f, s.workers[w].pc.cb;
    var st := s.fibers[f].state;
    var back := if cb && !Dead(st) then s.workers[w].(pc := Top, cbFiber := None) else s.workers[w].(pc := Top);
    var s1 := s.(workers := s.workers[w := back]);
    if st == READY then Append(s1, FiberJob(f), -1, None)
    else if Dead(st) then (if cb then SetFiber(s1, f, Fiber(INIT, Plain)) else s1)
    else SetState(s1, f, HOLD)
  }

  /** Worker w is about to reset its callback fiber while a wake-up for it is under way. */
  ghost predicate Recycles(s: World, w: nat) {
    && OnFiber(s, w) && s.workers[w].pc.Settle? && s.workers[w].pc.cb
    && Dead(s.fibers[s.workers[w].pc.f].state) && Outstanding(s, s.workers[w].pc.f)
  }

  ghost function DoReset(s: World, w: nat): (s': World)
    requires OnFiber(s, w) && s.workers[w].pc.Settle?
    ensures s'.(recycled := s.recycled) == DoSettled(s, w)
  {
    DoSettled(s, w).(recycled := if Recycles(s, w) then s.recycled + {s.workers[w].pc.f} else s.recycled)
  }

  /** The fiber gets the thread; for a callback this is its start. */
  function DoSwapIn(s: World, w: nat): World
    requires OnFiber(s, w) && s.workers[w].pc.Prepared?
  {
    var Prepared(f, cb) := s.workers[w].pc;
    var last := s.workers[w].last;
    SetPc(SetState(s, f, EXEC), w, Running(f, cb, Quiet)).(
      starts := if cb && last.Some? then s.starts + [Take(last.value, w)] else s.starts)
  }

  // ---- the code a fiber runs

  function DoFinish(s: World, w: nat, thrown: bool): World
    requires RunningQuiet(s, w)
  {
    var f, cb := s.workers[w].pc.f, s.workers[w].pc.cb;
    Lost(SetPc(SetFiber(s, f, Fiber(if thrown then EXCEPT else TERM, Plain)), w, Leaving(f, cb)),
        CodeTarget(s.fibers[f].code))
  }

  /** Whether a callback left a wake-up for its own fiber is put on record. */
  ghost function DoEnd(s: World, w: nat, thrown: bool): (s': World)
    requires RunningQuiet(s, w)
    ensures s'.(untidy := s.untidy) == DoFinish(s, w, thrown)
  {
    var f := s.workers[w].pc.f;
    var untidy := if Outstanding(s, f) then s.untidy + {f} else s.untidy - {f};
    DoFinish(s, w, thrown).(untidy := if s.workers[w].pc.cb then untidy else s.untidy)
  }

  function DoRunWake(s: World, w: nat): World
    requires RunningQuiet(s, w) && s.fibers[s.workers[w].pc.f].code.Wake?
  {
    var c := s.workers[w].pc.f;
    Append(SetFiber(s, c, s.fibers[c].(code := Plain)), FiberJob(s.fibers[c].code.target), -1, None)
  }

  function DoExpire(s: World, id: nat): World
    requires id in s.timers
  {
    Append(s.(timers := s.timers - {id}), CbJob(s.timers[id]), -1, None)
  }

  function DoAddEvent(s: World, fd: nat, ev: Event, job: Job): World
    requires |s.table.fds| >= 2 && AddMask(s.table, fd, ev).Some?
  {
    s.(table := Armed(s.table, fd, ev, job, s.regs), regs := s.regs + 1)
  }

  function SlotTarget(slot: Slot): Option<FiberId> {
    if slot.Full? then Target(slot.job) else None
  }

  function DoDelEvent(s: World, fd: nat, ev: Event): World
    requires ev in Context(s.table, fd).events && DropMask(s.table, fd, {ev}).Some?
  {
    var slot := Context(s.table, fd).At(ev);
    var deleted := if slot.Full? then s.deleted + {slot.reg} else s.deleted;
    Lost(s.(table := Deleted(s.table, fd, ev), deleted := deleted), SlotTarget(slot))
  }

  /** Lock the descriptor and tell the kernel; the waiters follow one by one. */
  function DoFiring(s: World, w: nat, fd: nat, gone: set<Event>): World
    requires At(s, w) && (s.workers[w].pc.Running? || s.workers[w].pc.Idle?) && DropMask(s.table, fd, gone).Some?
  {
    var table := s.table.(kernel := DropMask(s.table, fd, gone).value);
    SetPc(s, w, WithFiring(s.workers[w].pc, Firing(fd, gone))).(table := table)
  }

  function Unheld(s: World, w: nat, fd: nat): World
    requires At(s, w)
  {
    s.(workers := s.workers[w := s.workers[w].(held := s.workers[w].held - {fd})])
  }

  function Noted(wk: Worker, note: Note): (r: Worker)
    ensures r == wk.(held := r.held, asked := r.asked)
  {
    match note
    case Report(fd, seen) => wk.(held := wk.held[fd := seen])
    case Ignore(fd) => wk.(held := wk.held - {fd})
    case NoTimers => wk.(asked := 1)
    case NoPending => wk.(asked := 2)
    case GoOn => wk.(asked := 0)
  }

  function DoIdle(s: World, w: nat, note: Note): World
    requires At(s, w)
  {
    s.(workers := s.workers[w := Noted(s.workers[w], note)])
  }

  /** `triggerEvent`: clear the bit, move the waiter to the list; the last one frees the lock. */
  function DoTrigger(s: World, w: nat): (s': World)
    requires TriggerReady(s, w)
    ensures var Firing(fd, todo) := FiringOf(s.workers[w].pc);
            && s'.table == Cleared(s.table, fd, Next(todo))
            && |s'.workers| == |s.workers| && s'.workers == s.workers[w := s'.workers[w]]
            && var rest := todo - {Next(todo)};
               FiringOf(s'.workers[w].pc) == if rest == {} then Quiet else Firing(fd, rest)
  {
    var Firing(fd, todo) := FiringOf(s.workers[w].pc);
    var ev := Next(todo);
    var slot := s.table.fds[fd].At(ev);
    var rest := todo - {ev};
    var pc' := WithFiring(s.workers[w].pc, if rest == {} then Quiet else Firing(fd, rest));
    Append(SetPc(s, w, pc').(table := Cleared(s.table, fd, ev)), slot.job, -1, Some(slot.reg))
  }

  function Refreshed(s: World, f: FiberId): World {
    s.(abandoned := s.abandoned - {f})
  }

  ghost function ApplyTable(s: World, step: Step): World
    requires TableStep(step) && Enabled(s, step)
  {
    match step
    case WaitEvent(w, fd, ev) => DoAddEvent(Refreshed(s, s.workers[w].pc.f), fd, ev, FiberJob(s.workers[w].pc.f))
    case WatchEvent(w, fd, ev) => DoAddEvent(s, fd, ev, CbJob(Plain))
    case DelEvent(w, fd, ev) => DoDelEvent(s, fd, ev)
    case Cancel(w, fd, gone) => DoFiring(s, w, fd, gone)
    case Deliver(w, fd, seen) => DoFiring(Unheld(s, w, fd), w, fd, seen)
    case Trigger(w) => DoTrigger(s, w)
  }

  ghost function Apply(s: World, step: Step): World
    requires Enabled(s, step)
  {
    match step
    case Acquire(w) => SetPc(s, w, Scan(0))
    case Skip(w) => SetPc(s, w, Scan(s.workers[w].pc.i + 1))
    case Dequeue(w) => DoDequeue(s, w)
    case ScanEnd(w) => DoScanEnd(s, w)
    case Branch(w) => DoBranch(s, w)
    case SwapIn(w) => DoSwapIn(s, w)
    case YieldToHold(w) => SetPc(s, w, Leaving(s.workers[w].pc.f, s.workers[w].pc.cb))
    case YieldToReady(w) =>
      SetPc(SetState(s, s.workers[w].pc.f, READY), w, Leaving(s.workers[w].pc.f, s.workers[w].pc.cb))
    case Finish(w, thrown) => DoEnd(s, w, thrown)
    case SwapOut(w) => SetPc(s, w, Returned(s.workers[w].pc.f, s.workers[w].pc.cb))
    case Release(w) => SetPc(s, w, Settle(s.workers[w].pc.f, s.workers[w].pc.cb)).(active := s.active - 1)
    case Settled(w) => DoReset(s, w)
    case Spawn(pin) => Append(s.(fibers := s.fibers + [Fiber(INIT, Plain)]), FiberJob(|s.fibers|), pin, None)
    case Post(pin) => Append(s, CbJob(Plain), pin, None)
    case WakeSelf(w, pin) => Append(Refreshed(s, s.workers[w].pc.f), FiberJob(s.workers[w].pc.f), pin, None)
    case SleepSelf(w, id) => Refreshed(s, s.workers[w].pc.f).(timers := s.timers[id := Wake(s.workers[w].pc.f)])
    case RunWake(w) => DoRunWake(s, w)
    case PlainTimer(id) => s.(timers := s.timers[id := Plain])
    case DropTimer(id) => Lost(s.(timers := s.timers - {id}), CodeTarget(s.timers[id]))
    case Expire(w, id) => DoExpire(s, id)
    case Idling(w, note) => DoIdle(s, w, note)
    case Fail(w, fd) => s.(aborted := true)
    case LeaveIdle(w) => SetPc(s, w, Top).(idle := s.idle - 1)
    case ExitIdle(w) => s.(workers := s.workers[w := s.workers[w].(pc := Top, idleDone := true)], idle := s.idle - 1)
    case Stop => s.(autoStop := true, stopping := true)
    case _ => ApplyTable(s, step)
  }

  predicate Init(s: World) {
    && |s.workers| >= 1
    && (forall w :: 0 <= w < |s.workers| ==> s.workers[w] == Worker(Top, None, false, None, map[], 0))
    && !s.aborted && s.fibers == [] && s.queue == [] && s.active == 0 && s.idle == 0
    && |s.table.fds| >= 2 && (forall k :: 0 <= k < |s.table.fds| ==> s.table.fds[k] == NO_WAITERS)
    && s.table.kernel == map[] && s.table.pending == 0
    && s.timers == map[] && s.log == [] && s.taken == [] && s.starts == []
    && s.regs == 0 && s.deleted == {} && s.abandoned == {} && s.untidy == {} && s.recycled == {}
  }

  /** A run: states joined by enabled steps, from an initial state. */
  ghost predicate IsRun(trace: seq<World>, steps: seq<Step>) {
    && |trace| == |steps| + 1
    && Init(trace[0])
    && forall i :: 0 <= i < |steps| ==> Enabled(trace[i], steps[i]) && trace[i + 1] == Apply(trace[i], steps[i])
  }
}
