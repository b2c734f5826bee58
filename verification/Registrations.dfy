/** What becomes of one registration, step by step. */
module Registrations {
  import opened Tasks
  import opened Wrappers
  import opened EventTable
  import opened World
  import opened Invariants
  import opened TableSafety
  import opened Theorems
  import Wakes

  /** The step moved the waiter of registration r to the end of the list. */
  predicate Moves(s: World, step: Step, s': World, job: Job, r: nat) {
    && step.Trigger?
    && s'.log == s.log + [Entry(|s.log|, job, -1, Some(r))]
    && s'.queue == s.queue + [Entry(|s.log|, job, -1, Some(r))]
  }

  predicate Removes(step: Step, fd: nat, ev: Event) {
    step.DelEvent? && step.fd == fd && step.ev == ev
  }

  predicate IsArmed(s: World, fd: nat, ev: Event, job: Job, r: nat) {
    Context(s.table, fd).At(ev) == Full(job, r)
  }

  lemma TriggerSlot(s: World, w: nat, fd: nat, ev: Event, job: Job, r: nat)
    requires TableInv(s) && Enabled(s, Trigger(w)) && IsArmed(s, fd, ev, job, r)
    ensures var s' := Apply(s, Trigger(w));
            IsArmed(s', fd, ev, job, r) || Moves(s, Trigger(w), s', job, r)
  {
    var fire := FiringOf(s.workers[w].pc);
    TodoRegistered(s, w);
    ClearedKeeps(s.table, fire.fd, Next(fire.todo));
    assert Apply(s, Trigger(w)).table == Cleared(s.table, fire.fd, Next(fire.todo));
    hide TableInv, Cleared;
  }

  lemma AddSlot(s: World, step: Step, fd: nat, ev: Event, job: Job, r: nat)
    requires TableInv(s) && Enabled(s, step) && (step.WaitEvent? || step.WatchEvent?) && IsArmed(s, fd, ev, job, r)
    ensures IsArmed(Apply(s, step), fd, ev, job, r)
  {
    Wakes.FreeIsEmpty(s, step.fd);
    var waiter := if step.WaitEvent? then FiberJob(s.workers[step.w].pc.f) else CbJob(Plain);
    ArmedKeeps(s.table, step.fd, step.ev, waiter, s.regs);
  }

  /** An armed slot is left alone by every step but the trigger that queues its waiter and the
      `delEvent` that names it. */
  lemma SlotStep(s: World, step: Step, fd: nat, ev: Event, job: Job, r: nat)
    requires TableInv(s) && Enabled(s, step) && IsArmed(s, fd, ev, job, r)
    ensures var s' := Apply(s, step);
            IsArmed(s', fd, ev, job, r) || Moves(s, step, s', job, r) || Removes(step, fd, ev)
  {
    if step.Trigger? {
      TriggerSlot(s, step.w, fd, ev, job, r);
    } else if step.WaitEvent? || step.WatchEvent? {
      AddSlot(s, step, fd, ev, job, r);
    } else if step.DelEvent? {
      DeletedSlot(s.table, step.fd, step.ev, fd, ev);
    } else if !TableStep(step) {
      OffTableStep(s, step);
    }
  }

  /** A registration stays armed until its waiter is queued, as it was registered, or until
      `delEvent` names it: readiness, `cancelEvent`, `cancelAll` and the time-out of `do_io`, in
      whatever order they race, all end in the former. */
  lemma {:induction false} RegistrationFate(
        trace: seq<World>, steps: seq<Step>, m: nat, n: nat, fd: nat, ev: Event, job: Job, r: nat)
    requires IsRun(trace, steps) && m <= n < |trace| && IsArmed(trace[m], fd, ev, job, r)
    ensures || IsArmed(trace[n], fd, ev, job, r)
            || (exists k :: m <= k < n && Moves(trace[k], steps[k], trace[k + 1], job, r))
            || (exists k :: m <= k < n && Removes(steps[k], fd, ev))
  {
    hide IsArmed, Moves, Removes, Enabled, Apply, TableInv, RegInv, QueueInv, CountInv, FiberInv, Init;
    if m < n {
      RegistrationFate(trace, steps, m, n - 1, fd, ev, job, r);
      if IsArmed(trace[n - 1], fd, ev, job, r) {
        RunInv(trace, steps, n - 1);
        SlotStep(trace[n - 1], steps[n - 1], fd, ev, job, r);
      }
    }
  }
}
