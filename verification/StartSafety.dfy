/** Every step keeps the account of the callbacks that were started. */
module StartSafety {
  import opened EventTable
  import opened Invariants
  import opened Tasks
  import opened World
  import opened Wrappers

  /** Nothing is taken or started, and no worker comes to hold a task or loses one. */
  predicate StartFrame(s: World, s': World) {
    && s'.starts == s.starts && s'.taken == s.taken && |s'.workers| == |s.workers|
    && forall w :: 0 <= w < |s.workers| ==>
         && s'.workers[w].last == s.workers[w].last
         && (Holding(s'.workers[w].pc) || Holding(s.workers[w].pc) ==> s'.workers[w].pc == s.workers[w].pc)
  }

  lemma FrameKeeps(s: World, s': World)
    requires StartInv(s) && StartFrame(s, s')
    ensures StartInv(s')
  {
    forall w | 0 <= w < |s'.workers| ensures HoldOk(s', w) {
      assert HoldOk(s, w);
    }
  }

  lemma LoopFrame(s: World, step: Step)
    requires Enabled(s, step) && LoopStep(step) && !step.Dequeue? && !step.Branch? && !step.SwapIn?
    ensures StartFrame(s, Apply(s, step))
  {
    hide Outstanding, Context, Eligible, Stopping, FdFree, MutexFree, DoSettled, Recycles;
  }

  lemma CodeFrame(s: World, step: Step)
    requires Enabled(s, step) && CodeStep(step)
    ensures StartFrame(s, Apply(s, step))
  {
    hide Outstanding, Context, Eligible, Stopping, FdFree, MutexFree;
  }

  lemma AddFrame(s: World, step: Step)
    requires Enabled(s, step) && (step.WaitEvent? || step.WatchEvent? || step.DelEvent?)
    ensures StartFrame(s, Apply(s, step))
  {
    hide Outstanding, Context, AddMask, DropMask, Stopping, FdFree, MutexFree, Armed, Deleted;
  }

  lemma FireFrame(s: World, step: Step)
    requires Enabled(s, step) && (step.Cancel? || step.Deliver? || step.Trigger?)
    ensures StartFrame(s, Apply(s, step))
  {
    hide Outstanding, Context, AddMask, DropMask, Stopping, FdFree, MutexFree, Armed, Cleared, Deleted;
  }

  lemma OtherFrame(s: World, step: Step)
    requires Enabled(s, step) && !LoopStep(step) && !CodeStep(step) && !TableStep(step)
    ensures StartFrame(s, Apply(s, step))
  {
    hide Outstanding, Context, Eligible, Stopping, FdFree, MutexFree;
  }

  lemma FrameStep(s: World, step: Step)
    requires Enabled(s, step) && !step.Dequeue? && !step.Branch? && !step.SwapIn?
    ensures StartFrame(s, Apply(s, step))
  {
    hide Enabled, Apply, StartFrame;
    if LoopStep(step) { LoopFrame(s, step); }
    else if CodeStep(step) { CodeFrame(s, step); }
    else if step.WaitEvent? || step.WatchEvent? || step.DelEvent? { AddFrame(s, step); }
    else if TableStep(step) { FireFrame(s, step); }
    else { OtherFrame(s, step); }
  }

  /** An entry still listed was neither taken nor started, and comes after all that were taken. */
  lemma ListedIsNew(s: World, i: nat, t: Take)
    requires QueueInv(s) && i < |s.queue| && t in s.taken
    ensures t.entry.serial != s.queue[i].serial
    ensures Free(t.entry) && Free(s.queue[i]) ==> t.entry.serial < s.queue[i].serial
  {
    var k :| 0 <= k < |s.taken| && s.taken[k] == t;
    assert InList(s.queue, s.queue[i].serial);
    assert InTaken(s.taken, t.entry.serial);
  }

  lemma DoDequeueStarts(s: World, w: nat)
    requires QueueInv(s) && StartInv(s) && At(s, w) && s.workers[w].pc.Scan? && s.workers[w].pc.i < |s.queue|
    ensures StartInv(DoDequeue(s, w))
  {
    var s', e := DoDequeue(s, w), s.queue[s.workers[w].pc.i];
    assert s'.taken[|s.taken|] == Take(e, w);
    forall i | 0 <= i < |s.starts|
      ensures s.starts[i] in s'.taken && s.starts[i].entry.serial != e.serial
      ensures Free(s.starts[i].entry) && Free(e) ==> s.starts[i].entry.serial < e.serial
    {
      ListedIsNew(s, s.workers[w].pc.i, s.starts[i]);
    }
    forall v | 0 <= v < |s'.workers| ensures HoldOk(s', v) {
      assert HoldOk(s, v);
    }
  }

  /** No two workers hold the same task. */
  lemma HeldApart(s: World, v: nat, w: nat)
    requires QueueInv(s) && StartInv(s) && v < |s.workers| && w < |s.workers| && v != w
    requires Holding(s.workers[v].pc) && Holding(s.workers[w].pc)
    ensures s.workers[v].last.Some? && s.workers[w].last.Some?
    ensures s.workers[v].last.value.serial != s.workers[w].last.value.serial
  {
    assert HoldOk(s, v) && HoldOk(s, w);
    var i :| 0 <= i < |s.taken| && s.taken[i] == Take(s.workers[v].last.value, v);
    var j :| 0 <= j < |s.taken| && s.taken[j] == Take(s.workers[w].last.value, w);
    assert i < j || j < i;
  }

  lemma DoSwapInStarts(s: World, w: nat)
    requires QueueInv(s) && StartInv(s) && OnFiber(s, w) && s.workers[w].pc.Prepared?
    ensures StartInv(DoSwapIn(s, w))
  {
    var s' := DoSwapIn(s, w);
    assert HoldOk(s, w);
    forall v | 0 <= v < |s'.workers| ensures HoldOk(s', v) {
      assert HoldOk(s, v);
      if s.workers[w].pc.cb && v != w && Holding(s.workers[v].pc) { HeldApart(s, v, w); }
    }
  }

  lemma BranchStarts(s: World, w: nat)
    requires StartInv(s) && Enabled(s, Branch(w))
    ensures StartInv(Apply(s, Branch(w)))
  {
    hide Outstanding, Context, Dead, MutexFree, Eligible;
    var s' := Apply(s, Branch(w));
    assert HoldOk(s, w);
    forall i | 0 <= i < |s'.taken| && s'.taken[i].entry.job.CbJob? && s'.taken[i] !in s'.starts
      ensures StillHeld(s', s'.taken[i])
    {
      assert StillHeld(s, s.taken[i]);
    }
    forall v | 0 <= v < |s'.workers| ensures HoldOk(s', v) {
      assert HoldOk(s, v);
    }
  }

  lemma DequeueStarts(s: World, w: nat)
    requires QueueInv(s) && StartInv(s) && Enabled(s, Dequeue(w))
    ensures StartInv(Apply(s, Dequeue(w)))
  {
    hide QueueInv, StartInv, DoDequeue, Eligible;
    DoDequeueStarts(s, w);
  }

  lemma SwapInStarts(s: World, w: nat)
    requires QueueInv(s) && StartInv(s) && Enabled(s, SwapIn(w))
    ensures StartInv(Apply(s, SwapIn(w)))
  {
    hide QueueInv, StartInv, DoSwapIn;
    DoSwapInStarts(s, w);
  }

  lemma StartStep(s: World, step: Step)
    requires QueueInv(s) && StartInv(s) && Enabled(s, step)
    ensures StartInv(Apply(s, step))
  {
    hide Enabled, Apply, QueueInv, StartInv, StartFrame;
    match step
    case Dequeue(w) => DequeueStarts(s, w);
    case Branch(w) => BranchStarts(s, w);
    case SwapIn(w) => SwapInStarts(s, w);
    case _ =>
      FrameStep(s, step);
      FrameKeeps(s, Apply(s, step));
  }
}
