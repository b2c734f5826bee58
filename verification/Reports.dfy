/** What becomes of a readiness report by the time its worker holds the descriptor's lock. */
module Reports {
  import opened EventTable
  import opened Invariants
  import opened QueueSafety
  import opened Tasks
  import opened Theorems
  import opened Wakes
  import opened World
  import opened Wrappers

  predicate HeldOk(wk: Worker) {
    forall fd :: fd in wk.held ==> wk.held[fd] != {}
  }

  lemma ReportNames(s: World, step: Step)
    requires Enabled(s, step) && step.Idling? && step.note.Report?
    ensures step.note.seen != {}
  {
    hide Outstanding;
  }

  lemma HeldStep(s: World, step: Step, v: nat)
    requires Enabled(s, step) && v < |s.workers| && HeldOk(s.workers[v])
    ensures v < |Apply(s, step).workers| && HeldOk(Apply(s, step).workers[v])
  {
    hide Apply, Enabled;
    CountFrame(s, step);
    if step.Idling? && step.note.Report? { ReportNames(s, step); }
  }

  lemma {:induction false} ReportsName(trace: seq<World>, steps: seq<Step>, n: nat, v: nat)
    requires IsRun(trace, steps) && n < |trace| && v < |trace[0].workers|
    ensures v < |trace[n].workers| && HeldOk(trace[n].workers[v])
  {
    hide Apply, Enabled, HeldOk;
    if n == 0 {
      NothingHeld(trace[0], v);
    } else {
      ReportsName(trace, steps, n - 1, v);
      HeldStep(trace[n - 1], steps[n - 1], v);
    }
  }

  lemma NothingHeld(s: World, v: nat)
    requires Init(s) && v < |s.workers|
    ensures HeldOk(s.workers[v])
  {
  }

  lemma Overlap(seen: set<Event>, events: set<Event>)
    requires seen != {}
    ensures seen * events != {} && !(seen <= events) <==>
              seen == {READ, WRITE} && (events == {READ} || events == {WRITE})
  {
    EventSets(seen);
    EventSets(events);
    assert READ in {READ, WRITE} && WRITE in {READ, WRITE};
  }

  lemma ReportSteps(s: World, w: nat, fd: nat)
    requires TableInv(s) && !s.aborted && HasReport(s, w, fd) && s.workers[w].held[fd] != {}
    ensures var seen, events := s.workers[w].held[fd], Context(s.table, fd).events;
            && (Enabled(s, Fail(w, fd)) <==> seen * events != {} && !(seen <= events))
            && (Enabled(s, Idling(w, Ignore(fd))) <==> seen * events == {})
            && (Enabled(s, Deliver(w, fd, seen)) <==> seen <= events)
  {
    hide FdFree, DropMask, Outstanding;
    if s.workers[w].held[fd] <= Context(s.table, fd).events {
      FreeIsEmpty(s, fd);
      DropAccepted(s.table, fd, s.workers[w].held[fd]);
    }
  }

  /** A worker that holds a report and gets to the lock ignores it, delivers it or fails the assertion of
      `triggerEvent`, exactly one of these. It fails if and only if the report names both events and
      exactly one of them is registered by then. */
  lemma ReportOutcome(trace: seq<World>, steps: seq<Step>, n: nat, w: nat, fd: nat)
    requires IsRun(trace, steps) && n < |trace| && !trace[n].aborted && HasReport(trace[n], w, fd)
    ensures var s := trace[n];
            var seen, events := s.workers[w].held[fd], Context(s.table, fd).events;
            && seen != {}
            && (Enabled(s, Fail(w, fd)) <==> seen == {READ, WRITE} && (events == {READ} || events == {WRITE}))
            && (Enabled(s, Idling(w, Ignore(fd))) <==> seen * events == {})
            && (Enabled(s, Deliver(w, fd, seen)) <==> seen <= events)
  {
    hide Apply, Enabled, Init, QueueInv, StartInv, CountInv, RegInv, FiberInv;
    SameWorkers(trace, steps, n);
    ReportsName(trace, steps, n, w);
    RunInv(trace, steps, n);
    ReportSteps(trace[n], w, fd);
    Overlap(trace[n].workers[w].held[fd], Context(trace[n].table, fd).events);
  }

  // ---------------------------------------------------------------- one event at a time

  /** Every report the worker holds names one event. */
  predicate HeldSingle(wk: Worker) {
    forall fd :: fd in wk.held ==> |wk.held[fd]| == 1
  }

  predicate SingleReport(step: Step) {
    step.Idling? && step.note.Report? ==> |step.note.seen| == 1
  }

  lemma FailNeedsBoth(s: World, w: nat, fd: nat)
    requires Enabled(s, Fail(w, fd)) && HeldOk(s.workers[w])
    ensures w < |s.workers| && fd in s.workers[w].held && s.workers[w].held[fd] == {READ, WRITE}
  {
    hide FdFree, Outstanding;
    Overlap(s.workers[w].held[fd], Context(s.table, fd).events);
  }

  lemma SingleStep(s: World, step: Step, v: nat)
    requires Enabled(s, step) && SingleReport(step) && v < |s.workers| && HeldSingle(s.workers[v])
    ensures v < |Apply(s, step).workers| && HeldSingle(Apply(s, step).workers[v])
  {
    hide Apply, Enabled;
    CountFrame(s, step);
  }

  /** If no report names two events, no assertion fails. */
  lemma {:induction false} SingleReportsNeverFail(trace: seq<World>, steps: seq<Step>, n: nat)
    requires IsRun(trace, steps) && n < |trace| && forall k :: 0 <= k < n ==> SingleReport(steps[k])
    ensures !trace[n].aborted && forall v :: 0 <= v < |trace[n].workers| ==> HeldSingle(trace[n].workers[v])
  {
    hide Apply, Enabled, HeldOk, HeldSingle, SingleReport;
    if n == 0 {
      NothingHeldSingle(trace[0]);
    } else {
      var s, step := trace[n - 1], steps[n - 1];
      SingleReportsNeverFail(trace, steps, n - 1);
      CountFrame(s, step);
      forall v | 0 <= v < |s.workers| ensures HeldSingle(trace[n].workers[v]) { SingleStep(s, step, v); }
      if step.Fail? {
        FailWorker(s, step.w, step.fd);
        SameWorkers(trace, steps, n - 1);
        ReportsName(trace, steps, n - 1, step.w);
        FailNeedsBoth(s, step.w, step.fd);
        NotBoth(s.workers[step.w], step.fd);
      }
    }
  }

  lemma FailWorker(s: World, w: nat, fd: nat)
    requires Enabled(s, Fail(w, fd))
    ensures w < |s.workers|
  {
    hide Outstanding;
  }

  lemma NotBoth(wk: Worker, fd: nat)
    requires HeldSingle(wk) && fd in wk.held
    ensures wk.held[fd] != {READ, WRITE}
  {
    EventSets({});
  }

  lemma NothingHeldSingle(s: World)
    requires Init(s)
    ensures !s.aborted && forall v :: 0 <= v < |s.workers| ==> HeldSingle(s.workers[v])
  {
  }
}
