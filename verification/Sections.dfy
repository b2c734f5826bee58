/** A critical section that no other worker interrupts does what the methods of the two classes
    do: the steps of the interleaving add up to `TakeTask` and to `Flush`. */
module Sections {
  import opened Sequences
  import opened Tasks
  import opened Wrappers
  import opened EventTable
  import opened World
  import opened Invariants
  import opened Scheduling
  import opened IoManager

  ghost predicate Reaches(s: World, steps: seq<Step>, t: World)
    decreases |steps|
  {
    if steps == [] then s == t
    else Enabled(s, steps[0]) && Reaches(Apply(s, steps[0]), steps[1..], t)
  }

  function StatesOf(s: World): States {
    map f: FiberId | f < |s.fibers| :: s.fibers[f].state
  }

  lemma EligibleIsTakes(s: World, w: nat, e: Entry)
    ensures Eligible(s, w, e) <==> Takes(e, w, StatesOf(s))
  {
  }

  predicate NoneBefore(s: World, w: nat, i: nat)
    requires i <= |s.queue|
  {
    forall k :: 0 <= k < i ==> !Takes(s.queue[k], w, StatesOf(s))
  }

  lemma Prepend(s: World, step: Step, s': World, rest: seq<Step>, t: World)
    requires Enabled(s, step) && Apply(s, step) == s' && Reaches(s', rest, t)
    ensures Reaches(s, [step] + rest, t)
  {
    hide Enabled, Apply;
    assert ([step] + rest)[1..] == rest;
  }

  lemma SkipStep(s: World, w: nat)
    requires !s.aborted && At(s, w) && s.workers[w].pc.Scan? && s.workers[w].pc.i < |s.queue|
    requires !Eligible(s, w, s.queue[s.workers[w].pc.i])
    ensures Enabled(s, Skip(w)) && Apply(s, Skip(w)) == SetPc(s, w, Scan(s.workers[w].pc.i + 1))
  {
  }

  lemma LastStep(s: World, w: nat)
    requires !s.aborted && At(s, w) && s.workers[w].pc.Scan? && s.workers[w].pc.i <= |s.queue|
    requires s.workers[w].pc.i < |s.queue| ==> Eligible(s, w, s.queue[s.workers[w].pc.i])
    ensures var step := if s.workers[w].pc.i < |s.queue| then Dequeue(w) else ScanEnd(w);
            Enabled(s, step) && Apply(s, step) == if step.Dequeue? then DoDequeue(s, w) else DoScanEnd(s, w)
  {
  }

  predicate TookFirst(s: World, w: nat, t: World) {
    && At(s, w) && At(t, w)
    && (NoneBefore(s, w, |s.queue|) ==>
          t.queue == s.queue && t.active == s.active && (t.workers[w].pc == Exited || t.workers[w].pc == Idle(Quiet)))
    && forall i :: 0 <= i < |s.queue| && NoneBefore(s, w, i) && Takes(s.queue[i], w, StatesOf(s)) ==>
         && t.workers[w].pc == Taken(s.queue[i]) && t.queue == Erase(s.queue, i) && t.active == s.active + 1
  }

  lemma LastStepTakesFirst(s: World, w: nat)
    requires At(s, w) && s.workers[w].pc.Scan? && s.workers[w].pc.i <= |s.queue| && NoneBefore(s, w, s.workers[w].pc.i)
    ensures s.workers[w].pc.i == |s.queue| ==> TookFirst(s, w, DoScanEnd(s, w))
    ensures s.workers[w].pc.i < |s.queue| && Takes(s.queue[s.workers[w].pc.i], w, StatesOf(s)) ==>
              TookFirst(s, w, DoDequeue(s, w))
  {
    hide Takes, StatesOf;
    var at := s.workers[w].pc.i;
    forall i | 0 <= i < |s.queue| && NoneBefore(s, w, i) && Takes(s.queue[i], w, StatesOf(s))
      ensures i >= at && (at < |s.queue| && Takes(s.queue[at], w, StatesOf(s)) ==> i == at)
    {
    }
  }

  /** Left alone, a scan takes the first takeable entry, and falls through when there is none. */
  lemma {:induction false} SoloScan(s: World, w: nat) returns (steps: seq<Step>, t: World)
    requires !s.aborted && At(s, w) && s.workers[w].pc.Scan? && s.workers[w].pc.i <= |s.queue|
    requires NoneBefore(s, w, s.workers[w].pc.i)
    ensures Reaches(s, steps, t) && forall step :: step in steps ==> step in {Skip(w), Dequeue(w), ScanEnd(w)}
    ensures TookFirst(s, w, t)
    decreases |s.queue| - s.workers[w].pc.i
  {
    hide Enabled, Apply, Eligible, Takes, DoScanEnd, DoDequeue, TookFirst;
    var i := s.workers[w].pc.i;
    if i < |s.queue| { EligibleIsTakes(s, w, s.queue[i]); }
    if i < |s.queue| && !Eligible(s, w, s.queue[i]) {
      SkipStep(s, w);
      var s' := Apply(s, Skip(w));
      assert StatesOf(s') == StatesOf(s) && s'.queue == s.queue;
      var rest, t' := SoloScan(s', w);
      steps, t := [Skip(w)] + rest, t';
      Prepend(s, Skip(w), s', rest, t);
      SameScan(s, s', w, t);
    } else {
      LastStep(s, w);
      LastStepTakesFirst(s, w);
      var step := if i < |s.queue| then Dequeue(w) else ScanEnd(w);
      steps, t := [step], Apply(s, step);
      Prepend(s, step, t, [], t);
      assert [step] + [] == [step];
    }
  }

  lemma SameScan(s: World, s': World, w: nat, t: World)
    requires At(s, w) && s'.queue == s.queue && StatesOf(s') == StatesOf(s) && s'.active == s.active
    requires TookFirst(s', w, t)
    ensures TookFirst(s, w, t)
  {
    hide Takes, StatesOf;
    forall i: nat | i <= |s.queue| && NoneBefore(s, w, i) ensures NoneBefore(s', w, i) {
      assert forall k :: 0 <= k < i ==> s'.queue[k] == s.queue[k];
    }
  }

  function Dropped(step: Step): set<Event>
    requires step.Cancel? || step.Deliver?
  {
    if step.Cancel? then step.gone else step.seen
  }

  /** The entries a critical section appends, READ first. */
  function Queued(serial: nat, ctx: FdContext, gone: set<Event>): (r: seq<Entry>)
    ensures |r| == |Waiters(ctx, gone)| && forall k :: 0 <= k < |r| ==> Waiters(ctx, gone)[k] == Some(r[k].job)
  {
    var r := if READ in gone && ctx.read.Full? then [Entry(serial, ctx.read.job, -1, Some(ctx.read.reg))] else [];
    r + if WRITE in gone && ctx.write.Full? then [Entry(serial + |r|, ctx.write.job, -1, Some(ctx.write.reg))] else []
  }

  function Rounds(w: nat, gone: set<Event>): seq<Step> {
    if gone == {READ, WRITE} then [Trigger(w), Trigger(w)] else [Trigger(w)]
  }

  /** The report that led to a delivery is used up. */
  function Locked(s: World, step: Step): World
    requires (step.Cancel? || step.Deliver?) && At(s, step.w)
  {
    if step.Deliver? then Unheld(s, step.w, step.fd) else s
  }

  /** The first step of the section: the kernel call, with the descriptor locked. */
  lemma LockStep(s: World, step: Step)
    requires Enabled(s, step) && (step.Cancel? || step.Deliver?)
    ensures At(s, step.w) && FiringOf(s.workers[step.w].pc) == Quiet
    ensures (s.workers[step.w].pc.Running? || s.workers[step.w].pc.Idle?)
    ensures Dropped(step) != {} && Dropped(step) <= Context(s.table, step.fd).events
    ensures DropMask(s.table, step.fd, Dropped(step)).Some?
    ensures !s.aborted && Apply(s, step) == DoFiring(Locked(s, step), step.w, step.fd, Dropped(step))
  {
  }

  lemma TriggerStep(s: World, w: nat)
    requires !s.aborted && At(s, w) && MutexFree(s) && FiringOf(s.workers[w].pc).Firing?
    requires var fire := FiringOf(s.workers[w].pc);
             fire.todo != {} && fire.fd < |s.table.fds| && s.table.fds[fire.fd].At(Next(fire.todo)).Full?
    ensures Enabled(s, Trigger(w)) && Apply(s, Trigger(w)) == DoTrigger(s, w)
  {
  }

  /** What triggering the remaining events of a locked descriptor does. */
  lemma TriggerRest(s: World, w: nat, fd: nat, todo: set<Event>) returns (t: World)
    requires !s.aborted && At(s, w) && MutexFree(s) && FiringOf(s.workers[w].pc) == Firing(fd, todo)
    requires fd < |s.table.fds| && todo != {} && forall ev :: ev in todo ==> s.table.fds[fd].At(ev).Full?
    ensures Reaches(s, Rounds(w, todo), t)
    ensures t.table == ClearedIf(ClearedIf(s.table, fd, READ, READ in todo), fd, WRITE, WRITE in todo)
    ensures t.queue == s.queue + Queued(|s.log|, s.table.fds[fd], todo)
    ensures t.workers == s.workers[w := s.workers[w].(pc := WithFiring(s.workers[w].pc, Quiet))]
  {
    hide Enabled, Apply;
    EventSets(todo);
    TriggerStep(s, w);
    var s1 := DoTrigger(s, w);
    if todo == {READ, WRITE} {
      assert todo - {READ} == {WRITE};
      assert {WRITE} - {WRITE} == {};
      TriggerStep(s1, w);
      t := DoTrigger(s1, w);
      Prepend(s1, Trigger(w), t, [], t);
      Prepend(s, Trigger(w), s1, [Trigger(w)], t);
      assert [Trigger(w)] + [] == [Trigger(w)];
    } else {
      t := s1;
      Prepend(s, Trigger(w), t, [], t);
      assert [Trigger(w)] + [] == [Trigger(w)];
    }
  }

  /** Left alone, `cancelEvent`, `cancelAll` and delivery leave the table that `Flush` leaves, every
      waiter queued in order and the descriptor unlocked. */
  lemma SoloSection(s: World, step: Step) returns (t: World)
    requires TableInv(s) && MutexFree(s) && Enabled(s, step) && (step.Cancel? || step.Deliver?)
    ensures Reaches(s, [step] + Rounds(step.w, Dropped(step)), t)
    ensures step.fd < |s.table.fds| && DropMask(s.table, step.fd, Dropped(step)).Some?
    ensures t.table == Flushed(s.table, step.fd, Dropped(step))
    ensures t.queue == s.queue + Queued(|s.log|, s.table.fds[step.fd], Dropped(step))
    ensures At(s, step.w) && t.workers == Locked(s, step).workers
  {
    hide Enabled, Apply, Rounds, Queued, DropMask, ClearedIf, KernelOk;
    var w, fd, gone := step.w, step.fd, Dropped(step);
    LockStep(s, step);
    assert SlotsOk(s.table.fds[fd]);
    var s1 := Apply(s, step);
    t := TriggerRest(s1, w, fd, gone);
    Prepend(s, step, s1, Rounds(w, gone), t);
  }
}
