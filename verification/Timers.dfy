/** `TimerManager`: a set ordered by deadline, with cancel, refresh, reset, expiry and the bit that
    limits wake-ups. A timer is named by its address; a dead timer keeps its record. */
module Timers {
  import opened Sequences
  import opened Wrappers

  /** `next` is the deadline, `ms` the interval, `cb` the callback (None once spent or cancelled). */
  datatype Timer = Timer(next: nat, ms: nat, recurring: bool, cb: Option<nat>)

  datatype State = State(recs: map<nat, Timer>, order: seq<nat>, tickled: bool, previous: nat)

  const HOUR := 60 * 60 * 1000
  const WORD := 0x1_0000_0000_0000_0000

  /** Sums and differences of unsigned 64-bit words. */
  function Plus(a: nat, b: nat): nat { (a + b) % WORD }
  function Minus(a: nat, b: nat): nat { (a - b) % WORD }

  /** Both wrap around at 2 to the 64. */
  lemma WordArithmetic(a: nat, b: nat)
    requires a < 0x1_0000_0000_0000_0000 && b < 0x1_0000_0000_0000_0000
    ensures Plus(a, b) == if a + b < 0x1_0000_0000_0000_0000 then a + b else a + b - 0x1_0000_0000_0000_0000
    ensures Minus(a, b) == if a >= b then a - b else a - b + 0x1_0000_0000_0000_0000
  {
  }

  // ---------------------------------------------------------------- the ordered set

  /** `Timer::Comparator`: by deadline, then by address. */
  predicate Before(n1: nat, a1: nat, n2: nat, a2: nat) {
    n1 < n2 || (n1 == n2 && a1 < a2)
  }

  predicate Known(recs: map<nat, Timer>, order: seq<nat>) {
    forall i :: 0 <= i < |order| ==> order[i] in recs
  }

  predicate Sorted(recs: map<nat, Timer>, order: seq<nat>)
    requires Known(recs, order)
  {
    forall i, j :: 0 <= i < j < |order| ==> Before(recs[order[i]].next, order[i], recs[order[j]].next, order[j])
  }

  /** `lower_bound`: how many elements come before the key. */
  function LowerBound(recs: map<nat, Timer>, order: seq<nat>, next: nat, a: nat): (i: nat)
    requires Known(recs, order)
    ensures i <= |order|
  {
    if order == [] || !Before(recs[order[0]].next, order[0], next, a) then 0
    else 1 + LowerBound(recs, order[1..], next, a)
  }

  lemma {:induction false} LowerBoundSplits(recs: map<nat, Timer>, order: seq<nat>, next: nat, a: nat)
    requires Known(recs, order) && Sorted(recs, order)
    ensures var i := LowerBound(recs, order, next, a);
            && (forall k :: 0 <= k < i ==> Before(recs[order[k]].next, order[k], next, a))
            && (forall k :: i <= k < |order| ==> !Before(recs[order[k]].next, order[k], next, a))
  {
    if order != [] && Before(recs[order[0]].next, order[0], next, a) {
      var rest := order[1..];
      LowerBoundSplits(recs, rest, next, a);
      var i := LowerBound(recs, order, next, a);
      assert forall k :: 1 <= k < |order| ==> order[k] == rest[k - 1];
    }
  }

  function Insert(recs: map<nat, Timer>, order: seq<nat>, a: nat): seq<nat>
    requires Known(recs, order) && a in recs
  {
    var i := LowerBound(recs, order, recs[a].next, a);
    order[..i] + [a] + order[i..]
  }

  /** `find`: the index of a if the search by its present key meets it, else the length. */
  function Find(recs: map<nat, Timer>, order: seq<nat>, a: nat): (i: nat)
    requires Known(recs, order) && a in recs
    ensures i < |order| ==> order[i] == a
    ensures i <= |order|
  {
    var i := LowerBound(recs, order, recs[a].next, a);
    if i < |order| && order[i] == a then i else |order|
  }

  /** In a sorted set the search finds every member. */
  lemma FindFinds(recs: map<nat, Timer>, order: seq<nat>, a: nat)
    requires Known(recs, order) && Sorted(recs, order) && a in recs && a in order
    ensures Find(recs, order, a) < |order|
  {
    LowerBoundSplits(recs, order, recs[a].next, a);
    var k :| 0 <= k < |order| && order[k] == a;
    var i := LowerBound(recs, order, recs[a].next, a);
    assert i <= k;
  }

  lemma EraseSorted(recs: map<nat, Timer>, order: seq<nat>, i: nat)
    requires Known(recs, order) && Sorted(recs, order) && i < |order|
    ensures var r := Erase(order, i);
            && Known(recs, r) && Sorted(recs, r)
            && (forall b :: b in r <==> b in order && b != order[i])
  {
    var r := Erase(order, i);
    forall b ensures b in r <==> b in order && b != order[i] {
      if b in order && b != order[i] {
        var k :| 0 <= k < |order| && order[k] == b;
        assert r[if k < i then k else k - 1] == b;
      }
      if b in r {
        var k :| 0 <= k < |r| && r[k] == b;
        assert order[if k < i then k else k + 1] == b;
      }
    }
  }

  lemma InsertSorted(recs: map<nat, Timer>, order: seq<nat>, a: nat)
    requires Known(recs, order) && Sorted(recs, order) && a in recs && a !in order
    ensures var r := Insert(recs, order, a);
            && Known(recs, r) && Sorted(recs, r)
            && (forall b :: b in r <==> b in order || b == a)
            && (r[0] == a || (order != [] && r[0] == order[0]))
  {
    LowerBoundSplits(recs, order, recs[a].next, a);
    var i := LowerBound(recs, order, recs[a].next, a);
    var r := Insert(recs, order, a);
    forall j, k | 0 <= j < k < |r| ensures Before(recs[r[j]].next, r[j], recs[r[k]].next, r[k]) {
      if j == i { assert r[k] == order[k - 1]; }
      else if k == i { assert r[j] == order[j]; }
      else { assert r[j] == order[if j < i then j else j - 1] && r[k] == order[if k < i then k else k - 1]; }
    }
  }

  /** Records off the order may change freely. */
  lemma SortedFrame(recs: map<nat, Timer>, recs': map<nat, Timer>, order: seq<nat>)
    requires Known(recs, order) && Sorted(recs, order)
    requires forall b :: b in order ==> b in recs' && recs'[b].next == recs[b].next
    ensures Known(recs', order) && Sorted(recs', order)
  {
  }

  // ---------------------------------------------------------------- operations

  /** A timer is in the set exactly when its callback is still there, and the set is in order. */
  predicate Consistent(s: State) {
    && Known(s.recs, s.order) && Sorted(s.recs, s.order)
    && (forall a :: a in s.recs ==> (a in s.order <==> s.recs[a].cb.Some?))
  }

  datatype Op =
    | Add(a: nat, ms: nat, cb: nat, recurring: bool, now: nat)
    | Cancel(a: nat)
    | Refresh(a: nat, now: nat)
    | Reset(a: nat, ms: nat, fromNow: bool, now: nat)
    | GetNext(now: nat)
    | Expire(now: nat)

  /** Every element of the set is a timer. */
  predicate Typed(s: State) {
    Known(s.recs, s.order)
  }

  /** `ok` is the returned bool, `wild` whether the end of the set was erased, `notified` whether
      `onTimerInsertedAtFront` was called, `wait` the answer of `getNextTimer` (None for "no timer"),
      `handed` the timers whose callbacks were handed out, in order. */
  datatype Out = Out(ok: bool, wild: bool, notified: bool, wait: Option<nat>, handed: seq<nat>)

  const QUIET := Out(true, false, false, None, [])

  /** `addTimer(val, lock)`: insert, and notify if first and not notified since `getNextTimer`. */
  function Inserted(s: State, a: nat): (r: (State, Out))
    requires Typed(s) && a in s.recs
    ensures Typed(r.0)
  {
    var order := Insert(s.recs, s.order, a);
    var front := order[0] == a && !s.tickled;
    (s.(order := order, tickled := s.tickled || front), QUIET.(notified := front))
  }

  /** `detectClockRollover`: more than an hour back; the subtraction is on unsigned 64-bit words. */
  predicate RolledOver(previous: nat, now: nat) {
    now < previous && now < Minus(previous, HOUR)
  }

  /** What the test means on 64-bit readings. */
  lemma RolledOverMeans(previous: nat, now: nat)
    requires previous < WORD
    ensures RolledOver(previous, now) <==> if previous >= HOUR then now + HOUR < previous else now < previous
  {
    if previous >= HOUR { MinusFits(previous, HOUR); } else { assert Minus(previous, HOUR) == previous - HOUR + WORD; }
  }

  /** How many timers at the head of the set have a deadline of at most `now`. */
  function Due(recs: map<nat, Timer>, order: seq<nat>, now: nat): (n: nat)
    requires Known(recs, order)
    ensures n <= |order|
  {
    if order == [] || recs[order[0]].next > now then 0 else 1 + Due(recs, order[1..], now)
  }

  function DueCount(s: State, now: nat): (n: nat)
    requires Known(s.recs, s.order)
    ensures n <= |s.order|
  {
    if RolledOver(s.previous, now) then |s.order| else Due(s.recs, s.order, now)
  }

  /** An expired timer afterwards: back at a new deadline, or without its callback. */
  function Rearmed(t: Timer, now: nat): Timer {
    if t.recurring then t.(next := Plus(now, t.ms)) else t.(cb := None)
  }

  /** What the expiry loop does with one expired timer. */
  function RearmOne(s: State, a: nat, now: nat): (r: State)
    requires Known(s.recs, s.order) && a in s.recs
    ensures Known(r.recs, r.order) && r.recs.Keys == s.recs.Keys
  {
    var recs := s.recs[a := Rearmed(s.recs[a], now)];
    s.(recs := recs, order := if s.recs[a].recurring then Insert(recs, s.order, a) else s.order)
  }

  function RearmAll(s: State, xs: seq<nat>, now: nat): (r: State)
    requires Typed(s) && Known(s.recs, xs)
    ensures Typed(r)
    decreases |xs|
  {
    if xs == [] then s else RearmAll(RearmOne(s, xs[0], now), xs[1..], now)
  }

  function Expired(s: State, now: nat): (r: (State, Out))
    requires Typed(s)
    ensures Typed(r.0)
  {
    if s.order == [] then (s, QUIET)
    else
      var n := DueCount(s, now);
      var s1 := s.(order := s.order[n..], previous := now);
      (RearmAll(s1, s.order[..n], now), QUIET.(handed := s.order[..n]))
  }

  predicate Allowed(s: State, op: Op) {
    match op
    case Add(a, _, _, _, _) => a !in s.recs
    case Cancel(a) => a in s.recs
    case Refresh(a, _) => a in s.recs
    case Reset(a, _, _, _) => a in s.recs
    case _ => true
  }

  /** Take a timer out of the set, give it a new deadline and interval. */
  function Moved(s: State, a: nat, next: nat, ms: nat): (r: State)
    requires Typed(s) && a in s.recs && Find(s.recs, s.order, a) < |s.order|
    ensures Typed(r)
  {
    s.(order := Erase(s.order, Find(s.recs, s.order, a)), recs := s.recs[a := s.recs[a].(next := next, ms := ms)])
  }

  function Step(s: State, op: Op): (r: (State, Out))
    requires Typed(s) && Allowed(s, op)
    ensures Typed(r.0)
  {
    match op
    case Add(a, ms, cb, recurring, now) =>
      Inserted(s.(recs := s.recs[a := Timer(Plus(now, ms), ms, recurring, Some(cb))]), a)
    case Cancel(a) =>
      if s.recs[a].cb.None? then (s, QUIET.(ok := false))
      else
        var i := Find(s.recs, s.order, a);
        (s.(recs := s.recs[a := s.recs[a].(cb := None)], order := if i < |s.order| then Erase(s.order, i) else s.order),
         QUIET.(wild := i == |s.order|))
    case Refresh(a, now) =>
      if s.recs[a].cb.None? || Find(s.recs, s.order, a) == |s.order| then (s, QUIET.(ok := false))
      else
        var s1 := Moved(s, a, Plus(now, s.recs[a].ms), s.recs[a].ms);
        (s1.(order := Insert(s1.recs, s1.order, a)), QUIET)
    case Reset(a, ms, fromNow, now) =>
      if ms == s.recs[a].ms && !fromNow then (s, QUIET)
      else if s.recs[a].cb.None? || Find(s.recs, s.order, a) == |s.order| then (s, QUIET.(ok := false))
      else Inserted(Moved(s, a, Plus(ResetStart(s.recs[a], fromNow, now), ms), ms), a)
    case GetNext(now) =>
      (s.(tickled := false),
       QUIET.(wait := if s.order == [] then None
                      else Some(if now > s.recs[s.order[0]].next then 0 else s.recs[s.order[0]].next - now)))
    case Expire(now) => Expired(s, now)
  }

  function ResetStart(t: Timer, fromNow: bool, now: nat): nat {
    if fromNow then now else Minus(t.next, t.ms)
  }

  /** Out of the set, a timer's key may change without harm to the order. */
  lemma MovedConsistent(s: State, a: nat, next: nat, ms: nat)
    requires Consistent(s) && a in s.recs && s.recs[a].cb.Some?
    ensures Find(s.recs, s.order, a) < |s.order|
    ensures var m := Moved(s, a, next, ms);
            && Known(m.recs, m.order) && Sorted(m.recs, m.order)
            && (forall b :: b in m.order <==> b in s.order && b != a)
  {
    FindFinds(s.recs, s.order, a);
    EraseSorted(s.recs, s.order, Find(s.recs, s.order, a));
    var m := Moved(s, a, next, ms);
    SortedFrame(s.recs, m.recs, m.order);
  }

  // ---------------------------------------------------------------- expiry

  lemma {:induction false} DueSplits(recs: map<nat, Timer>, order: seq<nat>, now: nat)
    requires Known(recs, order) && Sorted(recs, order)
    ensures var n := Due(recs, order, now);
            && (forall k :: 0 <= k < n ==> recs[order[k]].next <= now)
            && (forall k :: n <= k < |order| ==> recs[order[k]].next > now)
  {
    if order != [] && recs[order[0]].next <= now {
      DueSplits(recs, order[1..], now);
      assert forall k :: 1 <= k < |order| ==> order[k] == order[1..][k - 1];
    }
  }

  /** The re-arm loop: the recurring ones are back at now + interval, the others have no callback. */
  lemma {:induction false} RearmAllExact(s: State, xs: seq<nat>, now: nat)
    requires Known(s.recs, s.order) && Sorted(s.recs, s.order) && Known(s.recs, xs)
    requires forall i :: 0 <= i < |xs| ==> xs[i] !in s.order
    requires forall i, j :: 0 <= i < j < |xs| ==> xs[i] != xs[j]
    ensures var r := RearmAll(s, xs, now);
            && r.recs.Keys == s.recs.Keys && r.tickled == s.tickled && r.previous == s.previous
            && Known(r.recs, r.order) && Sorted(r.recs, r.order)
            && (forall b :: b in r.order <==> b in s.order || (b in xs && s.recs[b].recurring))
            && (forall b :: b in s.recs ==> r.recs[b] == if b in xs then Rearmed(s.recs[b], now) else s.recs[b])
    decreases |xs|
  {
    if xs != [] {
      var a, rest := xs[0], xs[1..];
      RearmOneExact(s, a, now);
      var s' := RearmOne(s, a, now);
      RearmAllExact(s', rest, now);
      assert forall b :: b in xs <==> b == a || b in rest;
    }
  }

  lemma RearmOneExact(s: State, a: nat, now: nat)
    requires Known(s.recs, s.order) && Sorted(s.recs, s.order) && a in s.recs && a !in s.order
    ensures var r := RearmOne(s, a, now);
            && r.recs.Keys == s.recs.Keys && r.tickled == s.tickled && r.previous == s.previous
            && Known(r.recs, r.order) && Sorted(r.recs, r.order)
            && (forall b :: b in r.order <==> b in s.order || (b == a && s.recs[a].recurring))
            && r.recs == s.recs[a := Rearmed(s.recs[a], now)]
  {
    var recs := s.recs[a := Rearmed(s.recs[a], now)];
    SortedFrame(s.recs, recs, s.order);
    if s.recs[a].recurring { InsertSorted(recs, s.order, a); }
  }

  /** The head of the set that is due. */
  lemma DueExact(s: State, now: nat)
    requires Consistent(s)
    ensures var due, rest := s.order[..DueCount(s, now)], s.order[DueCount(s, now)..];
            && Known(s.recs, due) && Known(s.recs, rest) && Sorted(s.recs, rest)
            && (forall b :: b in due <==> b in s.order && (RolledOver(s.previous, now) || s.recs[b].next <= now))
            && (forall b :: b in rest <==> b in s.order && b !in due)
            && (forall i, j :: 0 <= i < j < |due| ==> due[i] != due[j])
  {
    DueSplits(s.recs, s.order, now);
    var n := DueCount(s, now);
    var due, rest := s.order[..n], s.order[n..];
  }

  lemma ExpireShape(s: State, now: nat)
    requires Consistent(s)
    ensures var (s', out) := Expired(s, now);
            && Consistent(s') && s'.recs.Keys == s.recs.Keys && s'.tickled == s.tickled
            && out.handed <= s.order
            && (forall b :: b in out.handed <==> b in s.order && (RolledOver(s.previous, now) || s.recs[b].next <= now))
            && (forall i, j :: 0 <= i < j < |out.handed| ==> out.handed[i] != out.handed[j])
            && (forall b :: b in s'.order <==> b in s.order && (b in out.handed ==> s.recs[b].recurring))
            && (forall b :: b in s.recs ==>
                  s'.recs[b] == if b in out.handed then Rearmed(s.recs[b], now) else s.recs[b])
  {
    hide DueCount, RearmAll, RolledOver;
    DueExact(s, now);
    if s.order != [] {
      var n := DueCount(s, now);
      RearmAllExact(s.(order := s.order[n..], previous := now), s.order[..n], now);
    }
  }

  /** An expired timer: a recurring one goes on at now plus its interval; a one-shot one
      loses its callback; nothing else changes. */
  lemma RearmedMeans(t: Timer, now: nat)
    ensures t.recurring ==> Rearmed(t, now) == t.(next := Plus(now, t.ms))
    ensures !t.recurring ==> Rearmed(t, now) == t.(cb := None)
  {
  }

  /** `listExpiredCb` hands out exactly the timers that are due (all of them on a rollover), in set
      order and each once; it keeps exactly the others and the recurring ones, these at now plus
      their interval; and it spends the rest. */
  lemma ExpireExact(s: State, now: nat)
    requires Consistent(s)
    ensures var (s', out) := Expired(s, now);
            && Consistent(s') && s'.recs.Keys == s.recs.Keys && s'.tickled == s.tickled
            && out.handed <= s.order
            && (forall b :: b in out.handed <==> b in s.order && (RolledOver(s.previous, now) || s.recs[b].next <= now))
            && (forall i, j :: 0 <= i < j < |out.handed| ==> out.handed[i] != out.handed[j])
            && (forall b :: b in s'.order <==> b in s.order && (b in out.handed ==> s.recs[b].recurring))
            && (forall b :: b in s.recs && b !in out.handed ==> s'.recs[b] == s.recs[b])
            && (forall b :: b in s.recs && b in out.handed ==>
                  s'.recs[b] == if s.recs[b].recurring
                                then s.recs[b].(next := Plus(now, s.recs[b].ms))
                                else s.recs[b].(cb := None))
  {
    ExpireShape(s, now);
    hide Expired, RolledOver, Consistent, Rearmed;
    var (s', out) := Expired(s, now);
    forall b | b in s.recs && b in out.handed
      ensures s'.recs[b] == if s.recs[b].recurring
                            then s.recs[b].(next := Plus(now, s.recs[b].ms))
                            else s.recs[b].(cb := None)
    {
      RearmedMeans(s.recs[b], now);
    }
  }

  // ---------------------------------------------------------------- every run

  lemma StepConsistent(s: State, op: Op)
    requires Consistent(s) && Allowed(s, op)
    ensures Consistent(Step(s, op).0)
  {
    match op
    case Add(a, ms, cb, recurring, now) =>
      var s1 := s.(recs := s.recs[a := Timer(Plus(now, ms), ms, recurring, Some(cb))]);
      SortedFrame(s.recs, s1.recs, s.order);
      InsertSorted(s1.recs, s.order, a);
    case Cancel(a) =>
      if s.recs[a].cb.Some? {
        FindFinds(s.recs, s.order, a);
        EraseSorted(s.recs, s.order, Find(s.recs, s.order, a));
        SortedFrame(s.recs, s.recs[a := s.recs[a].(cb := None)], Erase(s.order, Find(s.recs, s.order, a)));
      }
    case Refresh(a, now) =>
      if s.recs[a].cb.Some? { MovedBack(s, a, Plus(now, s.recs[a].ms), s.recs[a].ms); }
    case Reset(a, ms, fromNow, now) =>
      if !(ms == s.recs[a].ms && !fromNow) && s.recs[a].cb.Some? {
        MovedBack(s, a, Plus(ResetStart(s.recs[a], fromNow, now), ms), ms);
      }
    case GetNext(_) =>
    case Expire(now) => ExpireShape(s, now);
  }

  lemma MovedBack(s: State, a: nat, next: nat, ms: nat)
    requires Consistent(s) && a in s.recs && s.recs[a].cb.Some?
    ensures Find(s.recs, s.order, a) < |s.order|
    ensures var m := Moved(s, a, next, ms);
            Known(m.recs, m.order) && Consistent(m.(order := Insert(m.recs, m.order, a)))
  {
    MovedConsistent(s, a, next, ms);
    var m := Moved(s, a, next, ms);
    InsertSorted(m.recs, m.order, a);
  }

  ghost predicate IsRun(trace: seq<State>, ops: seq<Op>) {
    && |trace| == |ops| + 1
    && trace[0].recs == map[] && trace[0].order == []
    && forall i :: 0 <= i < |ops| ==>
        Typed(trace[i]) && Allowed(trace[i], ops[i]) && trace[i + 1] == Step(trace[i], ops[i]).0
  }

  lemma {:induction false} RunConsistent(trace: seq<State>, ops: seq<Op>, n: nat)
    requires IsRun(trace, ops) && n < |trace|
    ensures Consistent(trace[n])
  {
    if n > 0 {
      RunConsistent(trace, ops, n - 1);
      StepConsistent(trace[n - 1], ops[n - 1]);
    }
  }

  /** The search of `cancel`, `refresh` and `reset` meets every live timer: `cancel` never erases
      the end, and the other two fail only on a dead timer. */
  lemma SearchNeverMisses(trace: seq<State>, ops: seq<Op>, n: nat)
    requires IsRun(trace, ops) && n < |ops|
    ensures !Step(trace[n], ops[n]).1.wild
    ensures var op, out := ops[n], Step(trace[n], ops[n]).1;
            && (op.Cancel? || op.Refresh? ==> (out.ok <==> trace[n].recs[op.a].cb.Some?))
            && (op.Reset? ==>
                  (out.ok <==> trace[n].recs[op.a].cb.Some? || (op.ms == trace[n].recs[op.a].ms && !op.fromNow)))
  {
    RunConsistent(trace, ops, n);
    var s, op := trace[n], ops[n];
    if (op.Cancel? || op.Refresh? || op.Reset?) && s.recs[op.a].cb.Some? { FindFinds(s.recs, s.order, op.a); }
  }

  /** One step: timers never vanish, keep their kind, and a spent callback never returns. */
  lemma StepHistory(s: State, op: Op, a: nat)
    requires Consistent(s) && Allowed(s, op) && a in s.recs
    ensures var (s', out) := Step(s, op);
            && a in s'.recs && s'.recs[a].recurring == s.recs[a].recurring
            && (s.recs[a].cb.None? ==> s'.recs[a].cb.None? && a !in out.handed)
            && (a in out.handed && !s.recs[a].recurring ==> s'.recs[a].cb.None?)
            && (op == Cancel(a) ==> s'.recs[a].cb.None?)
  {
    if op.Expire? { ExpireShape(s, op.now); }
  }

  lemma {:induction false} RunHistory(trace: seq<State>, ops: seq<Op>, i: nat, j: nat, a: nat)
    requires IsRun(trace, ops) && i <= j < |trace| && a in trace[i].recs
    ensures a in trace[j].recs && trace[j].recs[a].recurring == trace[i].recs[a].recurring
    ensures trace[i].recs[a].cb.None? ==> trace[j].recs[a].cb.None?
    decreases j - i
  {
    if i < j {
      RunConsistent(trace, ops, i);
      StepHistory(trace[i], ops[i], a);
      RunHistory(trace, ops, i + 1, j, a);
    }
  }

  lemma HandedKnown(s: State, op: Op, a: nat)
    requires Typed(s) && Allowed(s, op) && a in Step(s, op).1.handed
    ensures a in s.recs
  {
  }

  /** Over any run a one-shot callback is handed out at most once. */
  lemma OneShotOnce(trace: seq<State>, ops: seq<Op>, i: nat, j: nat, a: nat)
    requires IsRun(trace, ops) && i < j < |ops|
    requires a in Step(trace[i], ops[i]).1.handed && a in Step(trace[j], ops[j]).1.handed
    ensures a in trace[i].recs && trace[i].recs[a].recurring
  {
    HandedKnown(trace[i], ops[i], a);
    RunConsistent(trace, ops, i);
    RunConsistent(trace, ops, j);
    StepHistory(trace[i], ops[i], a);
    RunHistory(trace, ops, i + 1, j, a);
    StepHistory(trace[j], ops[j], a);
  }

  /** No callback is handed out after a `cancel` of its timer, whatever the cancel returned. */
  lemma NeverAfterCancel(trace: seq<State>, ops: seq<Op>, i: nat, j: nat, a: nat)
    requires IsRun(trace, ops) && i < j < |ops| && ops[i] == Cancel(a)
    ensures a !in Step(trace[j], ops[j]).1.handed
  {
    RunConsistent(trace, ops, i);
    RunConsistent(trace, ops, j);
    StepHistory(trace[i], ops[i], a);
    RunHistory(trace, ops, i + 1, j, a);
    StepHistory(trace[j], ops[j], a);
  }

  // ---------------------------------------------------------------- no lost wake-up

  /** The earliest deadline, or one past every deadline when there is none. */
  function Earliest(s: State): nat
    requires Typed(s)
  {
    if s.order == [] then WORD else s.recs[s.order[0]].next
  }

  /** Every armed timer was armed at some time not after c, and nothing wraps around. */
  predicate ArmedBy(s: State, c: nat, most: nat)
    requires Typed(s)
  {
    forall b :: b in s.order ==> s.recs[b].ms <= most && s.recs[b].ms <= s.recs[b].next <= c + s.recs[b].ms
  }

  /** The clock reads c when the step runs; readings taken before the lock may be older. Interval
      and clock stay within a word, and the clock has not gone back by more than an hour. */
  predicate Timed(s: State, op: Op, c: nat, most: nat) {
    && c + most < WORD
    && match op
       case Add(_, ms, _, _, now) => now <= c && ms <= most
       case Cancel(_) => true
       case Refresh(_, now) => now == c
       case Reset(_, ms, fromNow, now) => (fromNow ==> now == c) && ms <= most
       case GetNext(_) => true
       case Expire(now) => now <= c && !RolledOver(s.previous, now)
  }

  lemma EarliestLeast(s: State, b: nat)
    requires Consistent(s) && b in s.order
    ensures Earliest(s) <= s.recs[b].next
  {
    var k :| 0 <= k < |s.order| && s.order[k] == b;
    if k > 0 { assert Before(s.recs[s.order[0]].next, s.order[0], s.recs[s.order[k]].next, s.order[k]); }
  }

  lemma PlusFits(a: nat, b: nat)
    requires a + b < WORD
    ensures Plus(a, b) == a + b
  {
  }

  lemma MinusFits(a: nat, b: nat)
    requires b <= a < WORD
    ensures Minus(a, b) == a - b
  {
  }

  lemma AddArmedBy(s: State, a: nat, ms: nat, cb: nat, recurring: bool, now: nat, c: nat, most: nat)
    requires Consistent(s) && a !in s.recs && ArmedBy(s, c, most) && now <= c && ms <= most && c + most < WORD
    ensures ArmedBy(Step(s, Add(a, ms, cb, recurring, now)).0, c, most)
  {
    PlusFits(now, ms);
    var s1 := s.(recs := s.recs[a := Timer(Plus(now, ms), ms, recurring, Some(cb))]);
    SortedFrame(s.recs, s1.recs, s.order);
    InsertSorted(s1.recs, s.order, a);
  }

  lemma CancelArmedBy(s: State, a: nat, c: nat, most: nat)
    requires Consistent(s) && a in s.recs && ArmedBy(s, c, most)
    ensures ArmedBy(Step(s, Cancel(a)).0, c, most)
  {
    if s.recs[a].cb.Some? {
      FindFinds(s.recs, s.order, a);
      EraseSorted(s.recs, s.order, Find(s.recs, s.order, a));
    }
  }

  lemma ResetArmedBy(s: State, op: Op, c: nat, most: nat)
    requires Consistent(s) && op.Reset? && Allowed(s, op) && Timed(s, op, c, most) && ArmedBy(s, c, most)
    ensures ArmedBy(Step(s, op).0, c, most)
  {
    var Reset(a, ms, fromNow, now) := op;
    if !(ms == s.recs[a].ms && !fromNow) && s.recs[a].cb.Some? {
      MinusFits(s.recs[a].next, s.recs[a].ms);
      MovedArmed(s, a, ResetStart(s.recs[a], fromNow, now), ms, c, most);
    }
  }

  lemma ExpireArmedBy(s: State, now: nat, c: nat, most: nat)
    requires Consistent(s) && ArmedBy(s, c, most) && now <= c && c + most < WORD
    ensures ArmedBy(Step(s, Expire(now)).0, c, most)
  {
    hide DueCount, RearmAll, Expired, RolledOver, Sorted;
    ExpireShape(s, now);
    forall b | b in s.order && s.recs[b].recurring ensures Plus(now, s.recs[b].ms) == now + s.recs[b].ms {
      PlusFits(now, s.recs[b].ms);
    }
  }

  lemma RefreshArmedBy(s: State, a: nat, now: nat, most: nat)
    requires Consistent(s) && a in s.recs && ArmedBy(s, now, most) && now + most < WORD
    ensures ArmedBy(Step(s, Refresh(a, now)).0, now, most)
  {
    if s.recs[a].cb.Some? { MovedArmed(s, a, now, s.recs[a].ms, now, most); }
  }

  lemma StepArmedBy(s: State, op: Op, c0: nat, c: nat, most: nat)
    requires Consistent(s) && Allowed(s, op) && Timed(s, op, c, most) && c0 <= c && ArmedBy(s, c0, most)
    ensures ArmedBy(Step(s, op).0, c, most)
  {
    assert ArmedBy(s, c, most);
    hide Consistent, Step, ArmedBy;
    match op
    case Add(a, ms, cb, recurring, now) => AddArmedBy(s, a, ms, cb, recurring, now, c, most);
    case Cancel(a) => CancelArmedBy(s, a, c, most);
    case Refresh(a, now) => RefreshArmedBy(s, a, now, most);
    case Reset(a, ms, fromNow, now) => ResetArmedBy(s, op, c, most);
    case GetNext(now) => GetNextArmedBy(s, now, c, most);
    case Expire(now) => ExpireArmedBy(s, now, c, most);
  }

  lemma GetNextArmedBy(s: State, now: nat, c: nat, most: nat)
    requires Typed(s) && ArmedBy(s, c, most)
    ensures ArmedBy(Step(s, GetNext(now)).0, c, most)
  {
  }

  lemma MovedArmed(s: State, a: nat, start: nat, ms: nat, c: nat, most: nat)
    requires Consistent(s) && a in s.recs && s.recs[a].cb.Some? && ArmedBy(s, c, most)
    requires start <= c && ms <= most && c + most < WORD
    ensures Find(s.recs, s.order, a) < |s.order|
    ensures var m := Moved(s, a, Plus(start, ms), ms);
            ArmedBy(m.(order := Insert(m.recs, m.order, a)), c, most)
  {
    PlusFits(start, ms);
    MovedConsistent(s, a, Plus(start, ms), ms);
    var m := Moved(s, a, Plus(start, ms), ms);
    InsertSorted(m.recs, m.order, a);
  }

  /** The new head of the set, after a step that does not notify, is not due before the old one. */
  lemma NewFront(s: State, op: Op, c0: nat, c: nat, most: nat)
    requires Consistent(s) && Allowed(s, op) && Timed(s, op, c, most) && c0 <= c && ArmedBy(s, c0, most)
    requires !s.tickled && !Step(s, op).1.notified && Step(s, op).0.order != []
    ensures Earliest(Step(s, op).0) >= Earliest(s)
  {
    var s' := Step(s, op).0;
    var b := s'.order[0];
    match op
    case Add(a, ms, cb, recurring, now) =>
      var s1 := s.(recs := s.recs[a := Timer(Plus(now, ms), ms, recurring, Some(cb))]);
      SortedFrame(s.recs, s1.recs, s.order);
      InsertSorted(s1.recs, s.order, a);
    case Cancel(a) =>
      if s.recs[a].cb.Some? {
        FindFinds(s.recs, s.order, a);
        EraseSorted(s.recs, s.order, Find(s.recs, s.order, a));
        assert b in s.order;
        EarliestLeast(s, b);
      }
    case Refresh(a, now) =>
      if s.recs[a].cb.Some? {
        PlusFits(now, s.recs[a].ms);
        MovedFront(s, a, now + s.recs[a].ms, s.recs[a].ms);
        EarliestLeast(s, b);
      }
    case Reset(a, ms, fromNow, now) =>
      if !(ms == s.recs[a].ms && !fromNow) && s.recs[a].cb.Some? {
        MovedFront(s, a, Plus(ResetStart(s.recs[a], fromNow, now), ms), ms);
        EarliestLeast(s, b);
      }
    case GetNext(_) =>
    case Expire(now) =>
      ExpireShape(s, now);
      assert b in s.order;
      EarliestLeast(s, b);
      if b in s.order && s.recs[b].recurring { PlusFits(now, s.recs[b].ms); }
  }

  lemma MovedFront(s: State, a: nat, next: nat, ms: nat)
    requires Consistent(s) && a in s.recs && s.recs[a].cb.Some?
    ensures Find(s.recs, s.order, a) < |s.order|
    ensures var m := Moved(s, a, next, ms);
            var r := Insert(m.recs, m.order, a);
            && a in s.order && r[0] in s.order && (r[0] != a ==> m.recs[r[0]] == s.recs[r[0]])
  {
    MovedConsistent(s, a, next, ms);
    var m := Moved(s, a, next, ms);
    InsertSorted(m.recs, m.order, a);
    assert Insert(m.recs, m.order, a)[0] in Insert(m.recs, m.order, a);
  }

  /** Without a notification the earliest deadline does not move forward, although `refresh` and
      the re-arming of recurring timers never notify. */
  lemma NoNoticeNoEarlier(s: State, op: Op, c0: nat, c: nat, most: nat)
    requires Consistent(s) && Allowed(s, op) && Timed(s, op, c, most) && c0 <= c && ArmedBy(s, c0, most)
    requires !s.tickled && !Step(s, op).1.notified
    ensures !Step(s, op).0.tickled && Earliest(Step(s, op).0) >= Earliest(s)
  {
    if Step(s, op).0.order != [] { NewFront(s, op, c0, c, most); }
    else if s.order != [] { assert s.order[0] in s.order; }
    if op.Expire? { ExpireShape(s, op.now); }
  }

  /** A run with a non-decreasing clock. */
  ghost predicate IsTimedRun(trace: seq<State>, ops: seq<Op>, clocks: seq<nat>, most: nat) {
    && IsRun(trace, ops) && |clocks| == |ops|
    && (forall i, j :: 0 <= i < j < |ops| ==> clocks[i] <= clocks[j])
    && (forall i :: 0 <= i < |ops| ==> Timed(trace[i], ops[i], clocks[i], most))
  }

  lemma {:induction false} RunArmedBy(trace: seq<State>, ops: seq<Op>, clocks: seq<nat>, most: nat, n: nat)
    requires IsTimedRun(trace, ops, clocks, most) && n < |trace|
    ensures Consistent(trace[n]) && ArmedBy(trace[n], if n == 0 then 0 else clocks[n - 1], most)
  {
    RunConsistent(trace, ops, n);
    if n > 0 {
      RunArmedBy(trace, ops, clocks, most, n - 1);
      RunConsistent(trace, ops, n - 1);
      StepArmedBy(trace[n - 1], ops[n - 1], if n == 1 then 0 else clocks[n - 2], clocks[n - 1], most);
    }
  }

  predicate Notified(trace: seq<State>, ops: seq<Op>, k: nat) {
    k < |ops| && k < |trace| && Typed(trace[k]) && Allowed(trace[k], ops[k]) && Step(trace[k], ops[k]).1.notified
  }

  lemma GetNextKeeps(s: State, now: nat)
    requires Typed(s)
    ensures var s' := Step(s, GetNext(now)).0;
            Earliest(s') == Earliest(s) && !s'.tickled
  {
  }

  /** If the earliest deadline is ever before the one an earlier `getNextTimer` saw, then
      `onTimerInsertedAtFront` was called after that `getNextTimer`. */
  lemma {:induction false} NoLostWakeUp(trace: seq<State>, ops: seq<Op>, clocks: seq<nat>, most: nat, i: nat, j: nat)
    requires IsTimedRun(trace, ops, clocks, most) && i < j < |trace| && ops[i].GetNext? && Typed(trace[i])
    requires Typed(trace[j])
    ensures || (Earliest(trace[j]) >= Earliest(trace[i]) && !trace[j].tickled)
            || exists k :: i < k < j && Notified(trace, ops, k)
  {
    hide Step, Timed, ArmedBy, Consistent, Earliest, Known, Allowed;
    if j == i + 1 {
      GetNextKeeps(trace[i], ops[i].now);
    } else {
      RunArmedBy(trace, ops, clocks, most, j - 1);
      NoLostWakeUp(trace, ops, clocks, most, i, j - 1);
      if k :| i < k < j - 1 && Notified(trace, ops, k) {
      } else if Step(trace[j - 1], ops[j - 1]).1.notified {
        assert Notified(trace, ops, j - 1);
      } else {
        NoNoticeNoEarlier(trace[j - 1], ops[j - 1], clocks[j - 2], clocks[j - 1], most);
      }
    }
  }
}
