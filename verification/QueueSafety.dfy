/** Every step keeps the task-list part of the invariant and the two thread counters. */
module QueueSafety {
  import opened Sequences
  import opened Tasks
  import opened Wrappers
  import opened EventTable
  import opened World
  import opened Invariants

  predicate NoNewScan(s: World, s': World) {
    && |s'.workers| == |s.workers|
    && forall w :: 0 <= w < |s.workers| && s'.workers[w].pc.Scan? ==> s'.workers[w].pc == s.workers[w].pc
  }

  predicate SameList(s: World, s': World) {
    s'.queue == s.queue && s'.log == s.log && s'.taken == s.taken
  }

  predicate AppendedList(s: World, s': World) {
    && |s'.queue| > 0
    && var e := s'.queue[|s'.queue| - 1];
    && e.serial == |s.log| && s'.queue == s.queue + [e] && s'.log == s.log + [e] && s'.taken == s.taken
  }

  lemma SameListKeeps(s: World, s': World)
    requires QueueInv(s) && SameList(s, s') && NoNewScan(s, s')
    ensures QueueInv(s')
  {
  }

  lemma AppendKeeps(s: World, s': World)
    requires QueueInv(s) && AppendedList(s, s') && NoNewScan(s, s') && MutexFree(s)
    ensures QueueInv(s')
  {
    var e := s'.queue[|s'.queue| - 1];
    forall k | 0 <= k < |s'.log| ensures InList(s'.queue, k) <==> !InTaken(s'.taken, k) {
      if k < |s.log| {
        if InList(s.queue, k) {
          var i :| 0 <= i < |s.queue| && s.queue[i].serial == k;
          assert s'.queue[i].serial == k;
        }
        if InList(s'.queue, k) {
          var i :| 0 <= i < |s'.queue| && s'.queue[i].serial == k;
          assert s.queue[i].serial == k;
        }
      } else {
        assert s'.queue[|s.queue|].serial == k;
      }
    }
  }

  lemma EraseList(q: seq<Entry>, j: nat, k: nat)
    requires j < |q| && forall i, i' :: 0 <= i < i' < |q| ==> q[i].serial < q[i'].serial
    ensures InList(Erase(q, j), k) <==> InList(q, k) && k != q[j].serial
  {
    var r := Erase(q, j);
    if InList(q, k) && k != q[j].serial {
      var i :| 0 <= i < |q| && q[i].serial == k;
      assert r[if i < j then i else i - 1].serial == k;
    }
    if InList(r, k) {
      var i :| 0 <= i < |r| && r[i].serial == k;
      assert q[if i < j then i else i + 1].serial == k;
    }
  }

  lemma ExtendTaken(ts: seq<Take>, t: Take, k: nat)
    ensures InTaken(ts + [t], k) <==> InTaken(ts, k) || t.entry.serial == k
  {
    if InTaken(ts, k) {
      var i :| 0 <= i < |ts| && ts[i].entry.serial == k;
      assert (ts + [t])[i].entry.serial == k;
    }
    assert (ts + [t])[|ts|] == t;
  }

  predicate CanDequeue(s: World, w: nat) {
    && At(s, w) && s.workers[w].pc.Scan? && s.workers[w].pc.i < |s.queue|
    && Eligible(s, w, s.queue[s.workers[w].pc.i])
  }

  lemma DequeueConserves(s: World, w: nat)
    requires QueueInv(s) && CanDequeue(s, w)
    ensures QueueOrdered(DoDequeue(s, w)) && Conserved(DoDequeue(s, w))
  {
    var s' := DoDequeue(s, w);
    var j := s.workers[w].pc.i;
    var e := s.queue[j];
    assert InList(s.queue, e.serial);
    forall k | 0 <= k < |s'.log| ensures InList(s'.queue, k) <==> !InTaken(s'.taken, k) {
      EraseList(s.queue, j, k);
      ExtendTaken(s.taken, Take(e, w), k);
    }
    forall i | 0 <= i < |s.taken| ensures s.taken[i].entry.serial != e.serial {
      assert InTaken(s.taken, s.taken[i].entry.serial);
    }
  }

  lemma DequeueInTurn(s: World, w: nat)
    requires QueueInv(s) && CanDequeue(s, w)
    ensures FirstInFirstOut(DoDequeue(s, w)) && ScansOk(DoDequeue(s, w))
  {
    hide Conserved;
    var s' := DoDequeue(s, w);
    var j := s.workers[w].pc.i;
    forall i, k | 0 <= i < |s'.taken| && 0 <= k < |s'.queue| && Free(s'.taken[i].entry) && Free(s'.queue[k])
      ensures s'.taken[i].entry.serial < s'.queue[k].serial
    {
      var k' := if k < j then k else k + 1;
      assert s'.queue[k] == s.queue[k'];
    }
  }

  lemma DequeueKeeps(s: World, w: nat)
    requires QueueInv(s) && Enabled(s, Dequeue(w))
    ensures QueueInv(Apply(s, Dequeue(w)))
  {
    hide DoDequeue, Eligible, QueueOrdered, Conserved, FirstInFirstOut, ScansOk;
    DequeueConserves(s, w);
    DequeueInTurn(s, w);
  }

  lemma ScanKeeps(s: World, step: Step)
    requires QueueInv(s) && Enabled(s, step) && (step.Acquire? || step.Skip?)
    ensures QueueInv(Apply(s, step))
  {
  }

  /** The steps that append one entry. */
  predicate Appends(s: World, step: Step) {
    || step.Spawn? || step.Post? || step.WakeSelf? || step.RunWake? || step.Expire? || step.Trigger?
    || (step.Settled? && OnFiber(s, step.w) && s.fibers[PcFiber(s.workers[step.w].pc).value].state == READY)
  }

  lemma QueueStep(s: World, step: Step)
    requires QueueInv(s) && Enabled(s, step)
    ensures QueueInv(Apply(s, step))
  {
    if step.Dequeue? {
      DequeueKeeps(s, step.w);
    } else if step.Acquire? || step.Skip? {
      ScanKeeps(s, step);
    } else {
      ListFrame(s, step);
      hide QueueInv, Enabled, Apply;
      if Appends(s, step) { AppendKeeps(s, Apply(s, step)); } else { SameListKeeps(s, Apply(s, step)); }
    }
  }

  predicate ListEffect(s: World, s': World, step: Step) {
    && NoNewScan(s, s')
    && if Appends(s, step) then AppendedList(s, s') && MutexFree(s) else SameList(s, s')
  }

  lemma LoopList(s: World, step: Step)
    requires Enabled(s, step) && (step.ScanEnd? || step.Branch? || step.SwapIn? || step.Release?)
    ensures ListEffect(s, Apply(s, step), step)
  {
    hide Outstanding, Context, AddMask, DropMask, Eligible, Stopping, FdFree, Armed, Cleared, Deleted, Target;
    hide DoBranchFiber, DoBranchCb;
  }

  lemma SettledList(s: World, w: nat)
    requires Enabled(s, Settled(w))
    ensures ListEffect(s, Apply(s, Settled(w)), Settled(w))
  {
    hide Outstanding, Context, AddMask, DropMask, Eligible, Stopping, FdFree, Armed, Cleared, Deleted, Target, Recycles;
  }

  lemma WakeList(s: World, step: Step)
    requires Enabled(s, step) && (step.WakeSelf? || step.SleepSelf? || step.RunWake?)
    ensures ListEffect(s, Apply(s, step), step)
  {
    hide Outstanding, Context, AddMask, DropMask, Eligible, Stopping, FdFree, Armed, Cleared, Deleted, Target;
  }

  lemma SwitchList(s: World, step: Step)
    requires Enabled(s, step) && (step.YieldToHold? || step.YieldToReady? || step.Finish? || step.SwapOut?)
    ensures ListEffect(s, Apply(s, step), step)
  {
    hide Outstanding, Context, AddMask, DropMask, Eligible, Stopping, FdFree, Armed, Cleared, Deleted, Target;
  }

  lemma AddList(s: World, step: Step)
    requires Enabled(s, step) && (step.WaitEvent? || step.WatchEvent? || step.DelEvent?)
    ensures ListEffect(s, Apply(s, step), step)
  {
    hide Outstanding, Context, AddMask, DropMask, Eligible, Stopping, FdFree, Armed, Cleared, Deleted, Target;
  }

  lemma FireList(s: World, step: Step)
    requires Enabled(s, step) && (step.Cancel? || step.Deliver? || step.Trigger?)
    ensures ListEffect(s, Apply(s, step), step)
  {
    hide Outstanding, Context, AddMask, DropMask, Eligible, Stopping, FdFree, Armed, Cleared, Deleted, Target;
  }

  lemma OtherList(s: World, step: Step)
    requires Enabled(s, step) && !LoopStep(step) && !CodeStep(step) && !TableStep(step)
    ensures ListEffect(s, Apply(s, step), step)
  {
    hide Outstanding, Context, AddMask, DropMask, Eligible, Stopping, FdFree, Armed, Cleared, Deleted, Target;
  }

  lemma ListFrame(s: World, step: Step)
    requires Enabled(s, step) && !step.Dequeue? && !step.Acquire? && !step.Skip?
    ensures ListEffect(s, Apply(s, step), step)
  {
    hide Enabled, Apply, ListEffect;
    if step.WakeSelf? || step.SleepSelf? || step.RunWake? { WakeList(s, step); }
    else if CodeStep(step) { SwitchList(s, step); }
    else if TableStep(step) {
      if step.WaitEvent? || step.WatchEvent? || step.DelEvent? { AddList(s, step); } else { FireList(s, step); }
    }
    else if step.Settled? { SettledList(s, step.w); }
    else if LoopStep(step) { LoopList(s, step); }
    else { OtherList(s, step); }
  }

  // ---------------------------------------------------------------- counters

  lemma {:induction false} CountUpdate(ws: seq<Worker>, w: nat, x: Worker)
    requires w < |ws|
    ensures CountBusy(ws[w := x]) == CountBusy(ws) - One(Busy(ws[w].pc)) + One(Busy(x.pc))
    ensures CountIdle(ws[w := x]) == CountIdle(ws) - One(ws[w].pc.Idle?) + One(x.pc.Idle?)
  {
    if w == 0 {
      assert ws[0 := x][1..] == ws[1..];
    } else {
      CountUpdate(ws[1..], w - 1, x);
      assert ws[w := x][1..] == ws[1..][w - 1 := x];
    }
  }

  function StepWorker(step: Step): Option<nat> {
    match step
    case Spawn(_) => None
    case Post(_) => None
    case PlainTimer(_) => None
    case DropTimer(_) => None
    case Stop => None
    case _ => Some(step.w)
  }

  function One(b: bool): int { if b then 1 else 0 }

  /** A worker comes to hold a report only by getting it. */
  predicate HeldKept(wk: Worker, wk': Worker, step: Step) {
    forall fd :: fd in wk'.held ==>
      || (fd in wk.held && wk'.held[fd] == wk.held[fd])
      || (step.Idling? && step.note == Report(fd, wk'.held[fd]))
  }

  /** A step moves at most its own worker, and moves the counters with it. */
  predicate CountEffect(s: World, s': World, step: Step) {
    && |s'.workers| == |s.workers|
    && s.recycled <= s'.recycled && (s'.recycled == s.recycled || step.Settled?)
    && (s'.untidy == s.untidy || step.Finish?)
    && (s'.aborted <==> s.aborted || step.Fail?)
    && (StepWorker(step).None? ==> s'.workers == s.workers && s'.active == s.active && s'.idle == s.idle)
    && (StepWorker(step).Some? ==>
          var w := StepWorker(step).value;
          && w < |s.workers|
          && s'.workers == s.workers[w := s'.workers[w]] && HeldKept(s.workers[w], s'.workers[w], step)
          && s'.active - s.active == One(Busy(s'.workers[w].pc)) - One(Busy(s.workers[w].pc))
          && s'.idle - s.idle == One(s'.workers[w].pc.Idle?) - One(s.workers[w].pc.Idle?))
  }

  lemma ScanCount(s: World, step: Step)
    requires Enabled(s, step) && (step.Acquire? || step.Skip? || step.Dequeue? || step.ScanEnd?)
    ensures CountEffect(s, Apply(s, step), step)
  {
    hide Outstanding, Context, AddMask, DropMask, Eligible, Stopping, FdFree, MutexFree, Target;
  }

  lemma InCount(s: World, step: Step)
    requires Enabled(s, step) && (step.Branch? || step.SwapIn?)
    ensures CountEffect(s, Apply(s, step), step)
  {
    hide Outstanding, Context, MutexFree, Target, DoBranchCb;
  }

  lemma OutCount(s: World, step: Step)
    requires Enabled(s, step) && (step.Release? || step.Settled?)
    ensures CountEffect(s, Apply(s, step), step)
  {
    hide Outstanding, Context, AddMask, DropMask, Eligible, Stopping, FdFree, MutexFree, Target, DoBranchCb, DoSettled;
    hide Recycles;
  }

  lemma WakeCount(s: World, step: Step)
    requires Enabled(s, step) && (step.WakeSelf? || step.SleepSelf? || step.RunWake?)
    ensures CountEffect(s, Apply(s, step), step)
  {
    hide Outstanding, Context, Eligible, Stopping, FdFree, MutexFree, Target;
  }

  lemma SwitchCount(s: World, step: Step)
    requires Enabled(s, step) && (step.YieldToHold? || step.YieldToReady? || step.Finish? || step.SwapOut?)
    ensures CountEffect(s, Apply(s, step), step)
  {
    hide Outstanding, Context, AddMask, DropMask, Eligible, Stopping, FdFree, MutexFree, Armed, Cleared, Deleted;
    hide Target;
  }

  lemma AddCount(s: World, step: Step)
    requires Enabled(s, step) && (step.WaitEvent? || step.WatchEvent? || step.DelEvent?)
    ensures CountEffect(s, Apply(s, step), step)
  {
    hide Outstanding, Context, AddMask, DropMask, Eligible, Stopping, FdFree, Armed, Cleared, Deleted, Target;
    hide MutexFree;
  }

  lemma FireCount(s: World, step: Step)
    requires Enabled(s, step) && (step.Cancel? || step.Deliver? || step.Trigger?)
    ensures CountEffect(s, Apply(s, step), step)
  {
    hide Outstanding, Context, AddMask, DropMask, Eligible, Stopping, FdFree, Armed, Cleared, Deleted, Target;
    hide MutexFree;
  }

  lemma OtherCount(s: World, step: Step)
    requires Enabled(s, step) && !LoopStep(step) && !CodeStep(step) && !TableStep(step)
    ensures CountEffect(s, Apply(s, step), step)
  {
    hide Outstanding, Context, AddMask, DropMask, Eligible, Stopping, FdFree, MutexFree, Armed, Cleared, Deleted;
    hide Target;
  }

  lemma CountFrame(s: World, step: Step)
    requires Enabled(s, step)
    ensures CountEffect(s, Apply(s, step), step)
  {
    hide Enabled, Apply, CountEffect;
    if step.WakeSelf? || step.SleepSelf? || step.RunWake? { WakeCount(s, step); }
    else if CodeStep(step) { SwitchCount(s, step); }
    else if TableStep(step) {
      if step.WaitEvent? || step.WatchEvent? || step.DelEvent? { AddCount(s, step); } else { FireCount(s, step); }
    }
    else if step.Branch? || step.SwapIn? { InCount(s, step); }
    else if step.Release? || step.Settled? { OutCount(s, step); }
    else if LoopStep(step) { ScanCount(s, step); }
    else { OtherCount(s, step); }
  }

  lemma CountStep(s: World, step: Step)
    requires CountInv(s) && Enabled(s, step)
    ensures CountInv(Apply(s, step))
  {
    CountFrame(s, step);
    hide Apply, Enabled;
    if StepWorker(step).Some? {
      var w := StepWorker(step).value;
      CountUpdate(s.workers, w, Apply(s, step).workers[w]);
    }
  }
}
