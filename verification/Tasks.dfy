/** Values shared by the scheduler, the event manager and the interleaving model. */
module Tasks {
  import opened Wrappers

  /** A fiber is named by its creation index. */
  type FiberId = nat

  /** The states of `Fiber::State`. */
  datatype FiberState = INIT | HOLD | EXEC | TERM | READY | EXCEPT

  predicate Dead(st: FiberState) { st == TERM || st == EXCEPT }

  /** What a callback still has to do, as far as the scheduler can tell: `sleep` binds
      `schedule(fiber)` into a timer callback, so such a callback owes a fiber its wake-up. */
  datatype Code = Plain | Wake(target: FiberId)

  /** A queued task: a fiber to resume or a callback to run. */
  datatype Job = FiberJob(fiber: FiberId) | CbJob(code: Code)

  /** One element of `m_fibers`. `serial` numbers the appends, `pin` is the thread the task is
      bound to (-1 for any), `reg` the event registration the entry came from, if any. */
  datatype Entry = Entry(serial: nat, job: Job, pin: int, reg: Option<nat>)

  /** The fiber whose wake-up a callback or a job carries. */
  function CodeTarget(code: Code): Option<FiberId> {
    match code
    case Plain => None
    case Wake(f) => Some(f)
  }

  function Target(job: Job): Option<FiberId> {
    match job
    case FiberJob(f) => Some(f)
    case CbJob(code) => CodeTarget(code)
  }

  /** An unpinned callback: the only kind of entry that every scan may take. */
  predicate Free(e: Entry) {
    e.job.CbJob? && e.pin == -1
  }

  /** The test of the scan in `run`: not another thread's task, not a fiber still running. */
  predicate Takeable(e: Entry, thread: int, running: bool) {
    (e.pin == -1 || e.pin == thread) && !(e.job.FiberJob? && running)
  }
}
