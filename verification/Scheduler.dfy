/** The task list as one thread sees it while it holds the mutex. */
module Scheduling {
  import opened Sequences
  import opened Tasks
  import opened Wrappers

  /** The states of the fibers, as the scan sees them. */
  type States = map<FiberId, FiberState>

  /** The thread may take the entry, given the states of the fibers. */
  predicate Takes(e: Entry, thread: int, states: States) {
    Takeable(e, thread, e.job.FiberJob? && e.job.fiber in states && states[e.job.fiber] == EXEC)
  }

  predicate Foreign(e: Entry, thread: int) {
    e.pin != -1 && e.pin != thread
  }

  /** The tasks of a range that are not null, numbered from `serial`. */
  function Entries(serial: nat, jobs: seq<Option<Job>>, pin: int): seq<Entry>
    decreases |jobs|
  {
    if jobs == [] then []
    else if jobs[0].Some? then [Entry(serial, jobs[0].value, pin, None)] + Entries(serial + 1, jobs[1..], pin)
    else Entries(serial, jobs[1..], pin)
  }

  lemma {:induction false} EntriesSnoc(serial: nat, jobs: seq<Option<Job>>, job: Option<Job>, pin: int)
    ensures Entries(serial, jobs + [job], pin)
         == Entries(serial, jobs, pin)
             + if job.Some? then [Entry(serial + |Entries(serial, jobs, pin)|, job.value, pin, None)] else []
    decreases |jobs|
  {
    if jobs == [] {
      assert jobs + [job] == [job];
      assert [job][1..] == [];
    } else {
      assert (jobs + [job])[1..] == jobs[1..] + [job];
      EntriesSnoc(if jobs[0].Some? then serial + 1 else serial, jobs[1..], job, pin);
    }
  }

  /** How many tasks of a range are not null. */
  function JobCount(jobs: seq<Option<Job>>): nat {
    if jobs == [] then 0 else (if jobs[0].Some? then 1 else 0) + JobCount(jobs[1..])
  }

  /** Each task stands where the number of tasks before it says, under the next number, with the pin. */
  lemma {:induction false} EntryOfJob(serial: nat, jobs: seq<Option<Job>>, pin: int, k: nat)
    requires k < |jobs| && jobs[k].Some?
    ensures |Entries(serial, jobs, pin)| == JobCount(jobs) && JobCount(jobs[..k]) < JobCount(jobs)
    ensures Entries(serial, jobs, pin)[JobCount(jobs[..k])]
         == Entry(serial + JobCount(jobs[..k]), jobs[k].value, pin, None)
    decreases |jobs|
  {
    var rest := jobs[1..];
    var serial' := if jobs[0].Some? then serial + 1 else serial;
    if k == 0 {
      assert jobs[..0] == [];
      EntryCount(serial', rest, pin);
    } else {
      assert jobs[..k][1..] == rest[..k - 1];
      EntryOfJob(serial', rest, pin, k - 1);
    }
  }

  lemma {:induction false} EntryCount(serial: nat, jobs: seq<Option<Job>>, pin: int)
    ensures |Entries(serial, jobs, pin)| == JobCount(jobs)
    decreases |jobs|
  {
    if jobs != [] { EntryCount(if jobs[0].Some? then serial + 1 else serial, jobs[1..], pin); }
  }

  class Scheduler {
    var fibers: seq<Entry>
    var serial: nat
    var active: nat

    constructor ()
      ensures fibers == [] && serial == 0 && active == 0
    {
      fibers, serial, active := [], 0, 0;
    }

    /** `scheduleNoLock`: a null task is not appended but still reports an empty list. */
    method ScheduleNoLock(job: Option<Job>, pin: int) returns (needTickle: bool)
      modifies this
      ensures needTickle <==> old(fibers) == []
      ensures fibers == old(fibers) + if job.Some? then [Entry(old(serial), job.value, pin, None)] else []
      ensures serial == old(serial) + if job.Some? then 1 else 0
      ensures active == old(active)
    {
      needTickle := fibers == [];
      if job.Some? {
        fibers := fibers + [Entry(serial, job.value, pin, None)];
        serial := serial + 1;
      }
    }

    /** `schedule(begin, end)`: moves every task out of the caller's range, in order. */
    method ScheduleRange(slots: array<Option<Job>>) returns (needTickle: bool)
      modifies this, slots
      ensures needTickle <==> old(fibers) == [] && slots.Length > 0
      ensures fibers == old(fibers) + Entries(old(serial), old(slots[..]), -1)
      ensures |fibers| == |old(fibers)| + JobCount(old(slots[..]))
      ensures forall k :: 0 <= k < slots.Length && old(slots[k]).Some? ==>
                var i := JobCount(old(slots[..])[..k]);
                && |old(fibers)| + i < |fibers|
                && fibers[|old(fibers)| + i] == Entry(old(serial) + i, old(slots[k]).value, -1, None)
      ensures forall k :: 0 <= k < slots.Length ==> slots[k] == None
      ensures active == old(active)
    {
      needTickle := false;
      ghost var jobs := slots[..];
      var i := 0;
      while i < slots.Length
        invariant 0 <= i <= slots.Length
        invariant fibers == old(fibers) + Entries(old(serial), jobs[..i], -1)
        invariant serial == old(serial) + |Entries(old(serial), jobs[..i], -1)|
        invariant forall k :: 0 <= k < i ==> slots[k] == None
        invariant forall k :: i <= k < slots.Length ==> slots[k] == jobs[k]
        invariant needTickle <==> old(fibers) == [] && i > 0
        invariant active == old(active)
      {
        EntriesSnoc(old(serial), jobs[..i], jobs[i], -1);
        assert jobs[..i + 1] == jobs[..i] + [jobs[i]];
        var job := slots[i];
        slots[i] := None;
        var tickle := ScheduleNoLock(job, -1);
        needTickle := tickle || needTickle;
        i := i + 1;
      }
      assert jobs[..i] == jobs;
      EntryCount(old(serial), jobs, -1);
      forall k | 0 <= k < |jobs| && jobs[k].Some?
        ensures JobCount(jobs[..k]) < JobCount(jobs)
        ensures Entries(old(serial), jobs, -1)[JobCount(jobs[..k])]
             == Entry(old(serial) + JobCount(jobs[..k]), jobs[k].value, -1, None)
      {
        EntryOfJob(old(serial), jobs, -1, k);
      }
    }

    /** The scan of `run`: dequeue the first takeable entry, leaving the others in order, and say
        whether other threads should be woken. */
    method TakeTask(thread: int, states: States) returns (task: Option<Entry>, tickle: bool)
      modifies this
      ensures task == None ==>
                && fibers == old(fibers) && active == old(active)
                && forall k :: 0 <= k < |fibers| ==> !Takes(fibers[k], thread, states)
      ensures task.Some? ==>
                exists i :: 0 <= i < |old(fibers)|
                  && task.value == old(fibers)[i] && Takes(task.value, thread, states)
                  && (forall k :: 0 <= k < i ==> !Takes(old(fibers)[k], thread, states))
                  && fibers == Erase(old(fibers), i) && active == old(active) + 1
                  && (tickle <==> i < |fibers| || exists k :: 0 <= k < i && Foreign(old(fibers)[k], thread))
      ensures task == None ==> (tickle <==> exists k :: 0 <= k < |fibers| && Foreign(fibers[k], thread))
      ensures task == None ==>
                forall k :: 0 <= k < |fibers| ==>
                  || (fibers[k].pin != -1 && fibers[k].pin != thread)
                  || (fibers[k].job.FiberJob? && fibers[k].job.fiber in states && states[fibers[k].job.fiber] == EXEC)
      ensures task.Some? ==>
                && (task.value.pin == -1 || task.value.pin == thread)
                && (task.value.job.FiberJob? && task.value.job.fiber in states ==>
                      states[task.value.job.fiber] != EXEC)
      ensures serial == old(serial)
    {
      task, tickle := None, false;
      var i := 0;
      while i < |fibers|
        invariant 0 <= i <= |fibers| && fibers == old(fibers) && active == old(active) && serial == old(serial)
        invariant forall k :: 0 <= k < i ==> !Takes(fibers[k], thread, states)
        invariant tickle <==> exists k :: 0 <= k < i && Foreign(fibers[k], thread)
      {
        var e := fibers[i];
        if e.pin != -1 && e.pin != thread {
          assert Foreign(fibers[i], thread);
          i := i + 1;
          tickle := true;
          continue;
        }
        if e.job.FiberJob? && e.job.fiber in states && states[e.job.fiber] == EXEC {
          i := i + 1;
          continue;
        }
        task := Some(e);
        fibers := Erase(fibers, i);
        active := active + 1;
        tickle := tickle || i < |fibers|;
        return;
      }
    }
  }
}
