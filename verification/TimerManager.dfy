/** `Timer` and `TimerManager` as the holder of the manager's lock runs them. Clock readings are
    parameters, and so is the address of the timer object each operation is called on or makes. */
module TimerManagers {
  import opened Sequences
  import opened Wrappers
  import opened Timers

  lemma {:induction false} DueUnique(recs: map<nat, Timer>, order: seq<nat>, now: nat, n: nat)
    requires Known(recs, order) && n <= |order|
    requires forall k :: 0 <= k < n ==> recs[order[k]].next <= now
    requires n < |order| ==> recs[order[n]].next > now
    ensures Due(recs, order, now) == n
  {
    if n > 0 {
      var rest := order[1..];
      assert n < |order| ==> rest[n - 1] == order[n];
      DueUnique(recs, rest, now, n - 1);
    }
  }

  /** An inserted timer is first in the set exactly when it comes before every other. */
  lemma FrontIsFirst(recs: map<nat, Timer>, order: seq<nat>, a: nat)
    requires Known(recs, order) && Sorted(recs, order) && a in recs && a !in order
    ensures |Insert(recs, order, a)| == |order| + 1
    ensures Insert(recs, order, a)[0] == a <==> forall b :: b in order ==> Before(recs[a].next, a, recs[b].next, b)
  {
    var r := Insert(recs, order, a);
    InsertSorted(recs, order, a);
    if r[0] == a {
      forall b | b in order ensures Before(recs[a].next, a, recs[b].next, b) {
        assert b in r;
        var k :| 0 <= k < |r| && r[k] == b;
        assert k > 0;
      }
    } else {
      assert r[0] in order;
    }
  }

  lemma Members(s: State)
    requires Consistent(s)
    ensures forall i :: 0 <= i < |s.order| ==> s.order[i] in s.recs && s.recs[s.order[i]].cb.Some?
    ensures forall i, j :: 0 <= i < j < |s.order| ==> s.order[i] != s.order[j]
  {
  }

  /** Expiry timer by timer. */
  lemma ExpiredTimers(s: State, now: nat)
    requires Consistent(s)
    ensures var (s', out) := Expired(s, now);
            && |out.handed| <= |s.order| && s'.recs.Keys == s.recs.Keys
            && (forall k :: 0 <= k < |s.order| ==>
                  (k < |out.handed| <==> RolledOver(s.previous, now) || s.recs[s.order[k]].next <= now))
            && (forall k :: 0 <= k < |out.handed| ==> out.handed[k] == s.order[k])
            && (forall b :: b in s.recs ==>
                  var t := s.recs[b];
                  var due := b in s.order && (RolledOver(s.previous, now) || t.next <= now);
                  && s'.recs[b] == (if !due then t
                                    else if t.recurring then t.(next := Plus(now, t.ms))
                                    else t.(cb := None))
                  && (b in s'.order <==> b in s.order && (due ==> t.recurring)))
            && (forall b :: b in s'.order ==> b in s.recs)
  {
    Members(s);
    ExpireExact(s, now);
    hide Expired, RolledOver, Consistent, Plus;
    var (s', out) := Expired(s, now);
    forall k | 0 <= k < |s.order|
      ensures k < |out.handed| <==> RolledOver(s.previous, now) || s.recs[s.order[k]].next <= now
    {
      assert k < |out.handed| ==> s.order[k] == out.handed[k];
      assert k >= |out.handed| ==> forall i :: 0 <= i < |out.handed| ==> out.handed[i] != s.order[k];
    }
  }

  lemma RearmNone(s: State, now: nat)
    requires Typed(s)
    ensures RearmAll(s, [], now) == s
  {
  }

  /** The callbacks of some timers, in order. */
  function Callbacks(recs: map<nat, Timer>, xs: seq<nat>): (r: seq<nat>)
    requires forall i :: 0 <= i < |xs| ==> xs[i] in recs && recs[xs[i]].cb.Some?
    ensures |r| == |xs| && forall i :: 0 <= i < |xs| ==> r[i] == recs[xs[i]].cb.value
  {
    seq(|xs|, i requires 0 <= i < |xs| => recs[xs[i]].cb.value)
  }

  class TimerManager {
    var recs: map<nat, Timer>
    var order: seq<nat>
    var tickled: bool
    var previous: nat
    var notices: nat

    ghost function View(): State
      reads this
    {
      State(recs, order, tickled, previous)
    }

    ghost predicate Valid()
      reads this
    {
      Consistent(View())
    }

    /** The class did what the operation says. */
    twostate predicate Did(op: Op)
      requires old(Valid()) && Allowed(old(View()), op)
      reads this
    {
      && Valid()
      && View() == Step(old(View()), op).0
      && notices == old(notices) + if Step(old(View()), op).1.notified then 1 else 0
    }

    constructor (now: nat)
      ensures Valid() && View() == State(map[], [], false, now) && notices == 0
    {
      recs, order, tickled, previous, notices := map[], [], false, now, 0;
    }

    /** `addTimer(val, lock)`: the set gains exactly this timer and stays in order; there is a call of
        `onTimerInsertedAtFront` exactly when the timer is now the first to be due and there was none
        since `getNextTimer`. */
    method Enter(a: nat)
      requires Known(recs, order) && Sorted(recs, order) && a in recs && a !in order
      modifies this
      ensures recs == old(recs) && previous == old(previous)
      ensures Known(recs, order) && Sorted(recs, order) && forall b :: b in order <==> b in old(order) || b == a
      ensures var first := forall b :: b in old(order) ==> Before(recs[a].next, a, recs[b].next, b);
              && notices == old(notices) + (if first && !old(tickled) then 1 else 0)
              && tickled == (old(tickled) || first)
      ensures View() == Inserted(old(View()), a).0
    {
      InsertSorted(recs, order, a);
      FrontIsFirst(recs, order, a);
      order := Insert(recs, order, a);
      var atFront := order[0] == a && !tickled;
      if atFront { tickled := true; }
      if atFront { notices := notices + 1; }
    }

    method AddTimer(a: nat, ms: nat, cb: nat, recurring: bool, now: nat)
      requires Valid() && a !in recs
      modifies this
      ensures Did(Add(a, ms, cb, recurring, now))
      ensures recs == old(recs)[a := Timer(Plus(now, ms), ms, recurring, Some(cb))]
      ensures forall b :: b in order <==> b in old(order) || b == a
    {
      StepConsistent(View(), Add(a, ms, cb, recurring, now));
      SortedFrame(recs, recs[a := Timer(Plus(now, ms), ms, recurring, Some(cb))], order);
      recs := recs[a := Timer(Plus(now, ms), ms, recurring, Some(cb))];
      Enter(a);
    }

    /** True exactly when the callback was still there; the search never misses. */
    method Cancel(a: nat) returns (ok: bool)
      requires Valid() && a in recs
      modifies this
      ensures Did(Op.Cancel(a))
      ensures ok <==> old(recs[a]).cb.Some?
      ensures recs == old(recs)[a := old(recs[a]).(cb := None)]
      ensures forall b :: b in order <==> b in old(order) && b != a
    {
      StepConsistent(View(), Op.Cancel(a));
      if recs[a].cb.None? { return false; }
      FindFinds(recs, order, a);
      var it := Find(recs, order, a);
      recs := recs[a := recs[a].(cb := None)];
      order := Erase(order, it);
      return true;
    }

    /** The deadline changes only while the timer is out of the set. */
    method Refresh(a: nat, now: nat) returns (ok: bool)
      requires Valid() && a in recs
      modifies this
      ensures Did(Op.Refresh(a, now))
      ensures ok <==> old(recs[a]).cb.Some?
      ensures recs == if ok then old(recs)[a := old(recs[a]).(next := Plus(now, old(recs[a]).ms))] else old(recs)
      ensures notices == old(notices) && forall b :: b in order <==> b in old(order)
    {
      StepConsistent(View(), Op.Refresh(a, now));
      if recs[a].cb.None? { return false; }
      FindFinds(recs, order, a);
      MovedConsistent(View(), a, Plus(now, recs[a].ms), recs[a].ms);
      order := Erase(order, Find(recs, order, a));
      assert a !in order;
      recs := recs[a := recs[a].(next := Plus(now, recs[a].ms))];
      order := Insert(recs, order, a);
      return true;
    }

    /** Out of the set, a new deadline, and in again. */
    method Reinsert(a: nat, next: nat, ms: nat)
      requires Valid() && a in recs && recs[a].cb.Some?
      modifies this
      ensures Find(old(recs), old(order), a) < |old(order)|
      ensures View() == Inserted(Moved(old(View()), a, next, ms), a).0
      ensures notices == old(notices) + if Inserted(Moved(old(View()), a, next, ms), a).1.notified then 1 else 0
      ensures recs == old(recs)[a := old(recs[a]).(next := next, ms := ms)]
      ensures forall b :: b in order <==> b in old(order)
    {
      FindFinds(recs, order, a);
      MovedConsistent(View(), a, next, ms);
      order := Erase(order, Find(recs, order, a));
      assert a !in order;
      recs := recs[a := recs[a].(next := next, ms := ms)];
      FrontIsFirst(recs, order, a);
      Enter(a);
    }

    method Reset(a: nat, ms: nat, fromNow: bool, now: nat) returns (ok: bool)
      requires Valid() && a in recs
      modifies this
      ensures Did(Op.Reset(a, ms, fromNow, now))
      ensures ok <==> old(recs[a]).cb.Some? || (ms == old(recs[a]).ms && !fromNow)
      ensures var t := old(recs[a]);
              var start := if fromNow then now else Minus(t.next, t.ms);
              recs == if ok && (ms != t.ms || fromNow)
                      then old(recs)[a := t.(ms := ms, next := Plus(start, ms))]
                      else old(recs)
      ensures forall b :: b in order <==> b in old(order)
    {
      StepConsistent(View(), Op.Reset(a, ms, fromNow, now));
      hide Plus, Minus, Inserted, Moved, Find, Consistent;
      if ms == recs[a].ms && !fromNow { return true; }
      if recs[a].cb.None? { return false; }
      var start := if fromNow then now else Minus(recs[a].next, recs[a].ms);
      Reinsert(a, Plus(start, ms), ms);
      return true;
    }

    /** Milliseconds to the earliest deadline, None without timers; reopens notifications. */
    method GetNextTimer(now: nat) returns (wait: Option<nat>)
      requires Valid()
      modifies this
      ensures Did(GetNext(now)) && wait == Step(old(View()), GetNext(now)).1.wait
      ensures recs == old(recs) && order == old(order) && !tickled && notices == old(notices)
      ensures wait.None? <==> order == []
      ensures wait.Some? ==>
                exists b :: b in order
                  && (forall c :: c in order ==> recs[b].next <= recs[c].next)
                  && wait.value == if now >= recs[b].next then 0 else recs[b].next - now
    {
      StepConsistent(View(), GetNext(now));
      tickled := false;
      if order == [] { return None; }
      forall b | b in order ensures Earliest(View()) <= recs[b].next { EarliestLeast(View(), b); }
      var next := recs[order[0]].next;
      return Some(if now > next then 0 else next - now);
    }

    /** On 64-bit readings: more than an hour back; within the first hour of the clock, where the
        subtraction wraps, any step back. */
    method DetectClockRollover(now: nat) returns (rollover: bool)
      modifies this`previous
      ensures rollover <==> RolledOver(old(previous), now)
      ensures old(previous) < 0x1_0000_0000_0000_0000 ==>
                (rollover <==>
                   if old(previous) >= 3_600_000 then now + 3_600_000 < old(previous) else now < old(previous))
      ensures previous == now
    {
      if previous < WORD { RolledOverMeans(previous, now); }
      rollover := false;
      if now < previous && now < Minus(previous, HOUR) { rollover := true; }
      previous := now;
    }

    /** The body of `listExpiredCb`. */
    method CollectExpired(now: nat, probe: nat) returns (cbs: seq<nat>)
      requires Valid()
      modifies this
      ensures Did(Expire(now))
      ensures var handed := Step(old(View()), Expire(now)).1.handed;
              && (forall i :: 0 <= i < |handed| ==> handed[i] in old(recs) && old(recs)[handed[i]].cb.Some?)
              && cbs == Callbacks(old(recs), handed)
    {
      hide Consistent, DueCount, RearmAll, RolledOver, Callbacks;
      StepConsistent(View(), Expire(now));
      Members(View());
      if order == [] { return []; }
      var expired := TakeExpired(now, probe);
      if expired == [] { RearmNone(View(), now); return []; }
      cbs := Rearm(expired, now);
    }

    /** `listExpiredCb`; `probe` is the address of the local timer used as the search key. */
    method ListExpiredCb(now: nat, probe: nat) returns (cbs: seq<nat>)
      requires Valid()
      modifies this
      ensures Did(Expire(now))
      ensures |cbs| <= |old(order)| && recs.Keys == old(recs).Keys
      ensures forall k :: 0 <= k < |old(order)| ==>
                var t := old(recs)[old(order)[k]];
                && (k < |cbs| <==> RolledOver(old(previous), now) || t.next <= now)
                && (k < |cbs| ==> t.cb == Some(cbs[k]))
      ensures forall b :: b in old(recs) ==>
                var t := old(recs)[b];
                var due := b in old(order) && (RolledOver(old(previous), now) || t.next <= now);
                && recs[b] == (if !due then t
                               else if t.recurring then t.(next := Plus(now, t.ms))
                               else t.(cb := None))
                && (b in order <==> b in old(order) && (due ==> t.recurring))
    {
      ExpiredTimers(View(), now);
      hide Consistent, Expired, RolledOver, Callbacks, Plus;
      cbs := CollectExpired(now, probe);
    }

    /** Everything up to the loop over the expired timers, on a set that is not empty. */
    method TakeExpired(now: nat, probe: nat) returns (expired: seq<nat>)
      requires Valid() && order != []
      modifies this`order, this`previous
      ensures var n := DueCount(old(View()), now);
              expired == old(order)[..n] && order == old(order)[n..] && previous == now
    {
      var rollover := DetectClockRollover(now);
      if !rollover && recs[order[0]].next > now { return []; }
      var it := DueIterator(now, probe, rollover);
      expired := order[..it];
      order := order[it..];
    }

    /** The iterator past the last due timer. */
    method DueIterator(now: nat, probe: nat, rollover: bool) returns (it: nat)
      requires Valid()
      ensures it == if rollover then |order| else Due(recs, order, now)
    {
      if rollover { return |order|; }
      LowerBoundSplits(recs, order, now, probe);
      it := LowerBound(recs, order, now, probe);
      while it < |order| && recs[order[it]].next == now
        invariant it <= |order|
        invariant forall k :: 0 <= k < it ==> recs[order[k]].next <= now
        invariant forall k :: it <= k < |order| ==> recs[order[k]].next >= now
      {
        it := it + 1;
      }
      DueUnique(recs, order, now, it);
    }

    /** Back into the set at a new deadline, or without its callback. */
    method RearmTimer(a: nat, now: nat)
      requires Typed(View()) && a in recs
      modifies this`recs, this`order
      ensures View() == RearmOne(old(View()), a, now)
      ensures recs == old(recs)[a := recs[a]]
    {
      if recs[a].recurring {
        recs := recs[a := recs[a].(next := Plus(now, recs[a].ms))];
        order := Insert(recs, order, a);
      } else {
        recs := recs[a := recs[a].(cb := None)];
      }
    }

    /** The loop over the expired timers: collect, then re-arm or spend. */
    method Rearm(expired: seq<nat>, now: nat) returns (cbs: seq<nat>)
      requires Typed(View()) && Known(recs, expired)
      requires forall i :: 0 <= i < |expired| ==> recs[expired[i]].cb.Some?
      requires forall i, j :: 0 <= i < j < |expired| ==> expired[i] != expired[j]
      modifies this`recs, this`order
      ensures View() == RearmAll(old(View()), expired, now)
      ensures cbs == Callbacks(old(recs), expired)
    {
      hide RearmOne, Callbacks;
      cbs := [];
      var i := 0;
      while i < |expired|
        invariant 0 <= i <= |expired| && Typed(View()) && recs.Keys == old(recs).Keys
        invariant RearmAll(View(), expired[i..], now) == RearmAll(old(View()), expired, now)
        invariant forall k :: i <= k < |expired| ==> recs[expired[k]] == old(recs)[expired[k]]
        invariant |cbs| == i && forall k :: 0 <= k < i ==> cbs[k] == old(recs)[expired[k]].cb.value
      {
        var a := expired[i];
        assert expired[i..][0] == a && expired[i..][1..] == expired[i + 1..];
        cbs := cbs + [recs[a].cb.value];
        RearmTimer(a, now);
        i := i + 1;
      }
    }
  }
}
