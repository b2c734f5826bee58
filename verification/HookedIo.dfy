/** One call of a hooked read or write: try, wait for readiness with a time-out, try again.
    The time-out callbacks of all rounds of a call share one `cancelled` flag. */
module HookedIo {
  import opened Wrappers

  datatype Outcome = Interrupted | Again | Other(ok: bool)

  datatype Result = Success | Failed | NotRegistered | TimedOut

  datatype Pc = Trying | Arming | Registering | Parked | Checking | Done(result: Result)

  /** A round's time-out: in the timer set; handed out to a worker; past setting the flag but short of
      `cancelEvent`; through; or cancelled in time. */
  datatype Fate = Armed | HandedOut | Striking | Ran | Dropped

  /** `limited`: the descriptor has a time-out. `timers`: the time-outs of the rounds so far. `cancelled`: the
      round whose time-out set the flag. */
  datatype Call = Call(limited: bool, pc: Pc, timers: seq<Fate>, registered: bool, woken: bool, cancelled: Option<nat>)

  /** `Fire`: the event is triggered by readiness or cancelled by someone else. `Resume`: back from the wait,
      cancel the timer. `Check`: test the flag. */
  datatype Step =
    | Try(outcome: Outcome)
    | Arm
    | Register(ok: bool)
    | Fire
    | Resume
    | Check
    | Expire(k: nat)
    | Strike(k: nat)
    | Sweep(k: nat)

  predicate TimerIs(s: Call, k: nat, fate: Fate) {
    k < |s.timers| && s.timers[k] == fate
  }

  predicate Can(s: Call, step: Step) {
    match step
    case Try(_) => s.pc == Trying
    case Arm => s.pc == Arming
    case Register(_) => s.pc == Registering
    case Fire => s.registered
    case Resume => s.pc == Parked && s.woken
    case Check => s.pc == Checking
    case Expire(k) => TimerIs(s, k, Armed)
    case Strike(k) => TimerIs(s, k, HandedOut)
    case Sweep(k) => TimerIs(s, k, Striking)
  }

  function Tried(outcome: Outcome): Pc {
    match outcome
    case Interrupted => Trying
    case Again => Arming
    case Other(ok) => Done(if ok then Success else Failed)
  }

  /** `timer->cancel()` on the round's timer. */
  function DropLast(timers: seq<Fate>): seq<Fate> {
    if |timers| > 0 && timers[|timers| - 1] == Armed then timers[|timers| - 1 := Dropped] else timers
  }

  /** The callback acts only while the call has not returned and the flag is clear. */
  function Struck(s: Call, k: nat): Call
    requires k < |s.timers|
  {
    if s.pc.Done? || s.cancelled.Some? then s.(timers := s.timers[k := Ran])
    else s.(timers := s.timers[k := Striking], cancelled := Some(k))
  }

  function Apply(s: Call, step: Step): Call
    requires Can(s, step)
  {
    match step
    case Try(outcome) => s.(pc := Tried(outcome))
    case Arm => s.(pc := Registering, timers := if s.limited then s.timers + [Armed] else s.timers)
    case Register(ok) =>
      if ok then s.(pc := Parked, registered := true, woken := false)
      else s.(pc := Done(NotRegistered), timers := DropLast(s.timers))
    case Fire => s.(registered := false, woken := true)
    case Resume => s.(pc := Checking, woken := false, timers := DropLast(s.timers))
    case Check => s.(pc := if s.cancelled.Some? then Done(TimedOut) else Trying)
    case Expire(k) => s.(timers := s.timers[k := HandedOut])
    case Strike(k) => Struck(s, k)
    case Sweep(k) =>
      s.(timers := s.timers[k := Ran], registered := false, woken := s.woken || s.registered)
  }

  ghost predicate IsPath(trace: seq<Call>, steps: seq<Step>) {
    && |trace| == |steps| + 1
    && forall i :: 0 <= i < |steps| ==> Can(trace[i], steps[i]) && trace[i + 1] == Apply(trace[i], steps[i])
  }

  function Begin(limited: bool): Call {
    Call(limited, Trying, [], false, false, None)
  }

  /** The states a call can be in. */
  predicate Waits(s: Call) {
    && (s.registered ==> s.pc == Parked && !s.woken)
    && (s.woken ==> s.pc == Parked)
    && (s.pc == Parked ==> s.registered || s.woken)
  }

  /** Only the round at work has its timer in the set. */
  predicate TimersOk(s: Call) {
    && (!s.limited ==> s.timers == [])
    && (forall k :: 0 <= k < |s.timers| && s.timers[k] == Armed ==>
          k == |s.timers| - 1 && (s.pc == Registering || s.pc == Parked))
    && (s.limited && (s.pc == Registering || s.pc == Parked || s.pc == Checking) ==> |s.timers| > 0)
    && (s.limited && (s.pc == Registering || s.pc == Parked) ==> !TimerIs(s, |s.timers| - 1, Dropped))
  }

  /** The flag is set if and only if one time-out got as far as setting it. */
  predicate FlagOk(s: Call) {
    && (forall k :: 0 <= k < |s.timers| && s.timers[k] == Striking ==> s.cancelled == Some(k))
    && (forall k :: 0 <= k < |s.timers| && s.timers[k] == Ran && !s.pc.Done? ==> s.cancelled.Some?)
    && (s.cancelled.Some? ==>
          TimerIs(s, s.cancelled.value, Striking) || TimerIs(s, s.cancelled.value, Ran))
  }

  predicate Inv(s: Call) {
    Waits(s) && TimersOk(s) && FlagOk(s)
  }

  lemma StepTimers(s: Call, step: Step)
    requires Waits(s) && TimersOk(s) && Can(s, step)
    ensures Waits(Apply(s, step)) && TimersOk(Apply(s, step)) && Apply(s, step).limited == s.limited
  {
  }

  lemma TimerFlag(s: Call, step: Step)
    requires FlagOk(s) && Can(s, step) && (step.Expire? || step.Strike? || step.Sweep?)
    ensures FlagOk(Apply(s, step))
  {
  }

  lemma CallFlag(s: Call, step: Step)
    requires FlagOk(s) && Can(s, step) && !step.Expire? && !step.Strike? && !step.Sweep?
    ensures FlagOk(Apply(s, step))
  {
  }

  lemma StepInv(s: Call, step: Step)
    requires Inv(s) && Can(s, step)
    ensures Inv(Apply(s, step)) && Apply(s, step).limited == s.limited
  {
    hide Apply, Waits, TimersOk, FlagOk;
    StepTimers(s, step);
    if step.Expire? || step.Strike? || step.Sweep? { TimerFlag(s, step); } else { CallFlag(s, step); }
  }

  lemma {:induction false} PathInv(trace: seq<Call>, steps: seq<Step>, n: nat)
    requires IsPath(trace, steps) && n < |trace| && Inv(trace[0])
    ensures Inv(trace[n]) && trace[n].limited == trace[0].limited
  {
    if n > 0 {
      PathInv(trace, steps, n - 1);
      StepInv(trace[n - 1], steps[n - 1]);
    }
  }

  // ---------------------------------------------------------------- when a call times out

  /** A time-out callback of the call runs before the call returns. */
  predicate StrikesAt(trace: seq<Call>, steps: seq<Step>, i: nat) {
    i < |steps| && i < |trace| && steps[i].Strike? && !trace[i].pc.Done?
  }

  lemma StepOutcome(s: Call, step: Step)
    requires Can(s, step)
    ensures Apply(s, step).cancelled.Some? <==> s.cancelled.Some? || (step.Strike? && !s.pc.Done?)
    ensures Apply(s, step).pc == Done(TimedOut) <==> s.pc == Done(TimedOut) || (step == Check && s.cancelled.Some?)
  {
  }

  lemma {:induction false} FlagSet(trace: seq<Call>, steps: seq<Step>, n: nat)
    requires IsPath(trace, steps) && n < |trace| && trace[0].cancelled == None
    ensures trace[n].cancelled.Some? <==> exists i :: 0 <= i < n && StrikesAt(trace, steps, i)
  {
    if n > 0 {
      FlagSet(trace, steps, n - 1);
      hide Can, Apply;
      StepOutcome(trace[n - 1], steps[n - 1]);
      assert trace[n].cancelled.Some? <==> trace[n - 1].cancelled.Some? || StrikesAt(trace, steps, n - 1);
    }
  }

  /** The call comes back from a wait after one of its time-outs has run. */
  ghost predicate ChecksLate(trace: seq<Call>, steps: seq<Step>, j: nat) {
    j < |steps| && steps[j] == Check && exists i :: 0 <= i < j && StrikesAt(trace, steps, i)
  }

  lemma {:induction false} TimesOut(trace: seq<Call>, steps: seq<Step>, n: nat)
    requires IsPath(trace, steps) && n < |trace| && trace[0].cancelled == None && trace[0].pc != Done(TimedOut)
    ensures trace[n].pc == Done(TimedOut) <==> exists j :: 0 <= j < n && ChecksLate(trace, steps, j)
  {
    hide Can, Apply, StrikesAt;
    if n > 0 {
      TimesOut(trace, steps, n - 1);
      FlagSet(trace, steps, n - 1);
      StepOutcome(trace[n - 1], steps[n - 1]);
      assert trace[n].pc == Done(TimedOut) <==>
          trace[n - 1].pc == Done(TimedOut) || ChecksLate(trace, steps, n - 1);
    }
  }

  /** A call returns ETIMEDOUT if and only if it comes back from a wait after the time-out of that round or of
      any earlier one has run; without a time-out on the descriptor it never does. */
  lemma TimesOutIff(trace: seq<Call>, steps: seq<Step>, limited: bool, n: nat)
    requires IsPath(trace, steps) && n < |trace| && trace[0] == Begin(limited)
    ensures trace[n].pc == Done(TimedOut) <==> exists j :: 0 <= j < n && ChecksLate(trace, steps, j)
    ensures trace[n].pc == Done(TimedOut) ==> limited
  {
    TimesOut(trace, steps, n);
    FlagSet(trace, steps, n);
    PathInv(trace, steps, n);
  }

  /** Step i ends the call with this result, told from the step alone. */
  ghost predicate EndsWith(trace: seq<Call>, steps: seq<Step>, i: nat, result: Result) {
    && i < |steps|
    && match result
       case Success => steps[i] == Try(Other(true))
       case Failed => steps[i] == Try(Other(false))
       case NotRegistered => steps[i] == Register(false)
       case TimedOut => ChecksLate(trace, steps, i)
  }

  lemma StepEnds(s: Call, step: Step, result: Result)
    requires Can(s, step) && result != TimedOut
    ensures Apply(s, step).pc == Done(result) <==>
              || s.pc == Done(result)
              || step == (if result == Success then Try(Other(true)) else if result == Failed then Try(Other(false))
                          else Register(false))
  {
  }

  /** How each result comes about: the operation went through, it failed for a reason of its own, the
      event could not be registered, or a wait was over after a time-out had run. */
  lemma {:induction false} EndsBecause(trace: seq<Call>, steps: seq<Step>, limited: bool, n: nat, result: Result)
    requires IsPath(trace, steps) && n < |trace| && trace[0] == Begin(limited)
    ensures trace[n].pc == Done(result) <==> exists i :: 0 <= i < n && EndsWith(trace, steps, i, result)
  {
    hide Can, Apply;
    if result == TimedOut {
      TimesOut(trace, steps, n);
      forall i: nat ensures EndsWith(trace, steps, i, TimedOut) <==> ChecksLate(trace, steps, i) {}
    } else if n > 0 {
      EndsBecause(trace, steps, limited, n - 1, result);
      StepEnds(trace[n - 1], steps[n - 1], result);
      assert trace[n].pc == Done(result) <==>
          trace[n - 1].pc == Done(result) || EndsWith(trace, steps, n - 1, result);
    }
  }

  // ---------------------------------------------------------------- a time-out that strikes a later round

  /** A later round than r fails because the time-out of round r ran. */
  predicate FailsLater(s: Call, r: nat) {
    s.pc == Done(TimedOut) && s.cancelled == Some(r) && |s.timers| > r + 1
  }

  ghost predicate CanFailLater(s: Call, r: nat) {
    exists trace, steps :: IsPath(trace, steps) && trace[0] == s && FailsLater(trace[|steps|], r)
  }

  lemma {:induction false} StaysDropped(trace: seq<Call>, steps: seq<Step>, r: nat, n: nat)
    requires IsPath(trace, steps) && n < |trace| && TimerIs(trace[0], r, Dropped)
    ensures TimerIs(trace[n], r, Dropped)
  {
    if n > 0 {
      StaysDropped(trace, steps, r, n - 1);
    }
  }

  function LateSteps(r: nat): seq<Step> {
    [Check, Try(Again), Arm, Register(true), Strike(r), Sweep(r), Resume, Check]
  }

  /** The next round registers and waits; then the old time-out runs. Its own never got to expire. */
  lemma StrikesNextRound(s: Call, r: nat) returns (trace: seq<Call>)
    requires Inv(s) && s.limited && s.pc == Checking && s.cancelled == None && |s.timers| == r + 1
    requires s.timers[r] == HandedOut
    ensures IsPath(trace, LateSteps(r)) && trace[0] == s
    ensures FailsLater(trace[8], r) && TimerIs(trace[8], r + 1, Dropped)
  {
    var s1 := Apply(s, Check);
    var s2 := Apply(s1, Try(Again));
    var s3 := Apply(s2, Arm);
    var s4 := Apply(s3, Register(true));
    var s5 := Apply(s4, Strike(r));
    var s6 := Apply(s5, Sweep(r));
    var s7 := Apply(s6, Resume);
    trace := [s, s1, s2, s3, s4, s5, s6, s7, Apply(s7, Check)];
  }

  /** Back from round r with the flag clear, its time-out can fail a later round if and only if `cancel` came
      too late for it. */
  lemma LateTimeOut(trace: seq<Call>, steps: seq<Step>, n: nat, r: nat)
    requires IsPath(trace, steps) && trace[0] == Begin(true) && n < |trace|
    requires trace[n].pc == Checking && trace[n].cancelled == None && |trace[n].timers| == r + 1
    ensures CanFailLater(trace[n], r) <==> trace[n].timers[r] != Dropped
  {
    PathInv(trace, steps, n);
    var s := trace[n];
    assert TimerIs(s, r, s.timers[r]);
    if s.timers[r] == Dropped {
      forall more, extra | IsPath(more, extra) && more[0] == s ensures !FailsLater(more[|extra|], r) {
        PathInv(more, extra, |extra|);
        StaysDropped(more, extra, r, |extra|);
      }
    } else {
      var more := StrikesNextRound(s, r);
      assert IsPath(more, LateSteps(r)) && FailsLater(more[|LateSteps(r)|], r);
    }
  }

  function FirstRound(): seq<Step> {
    [Try(Again), Arm, Register(true), Fire, Expire(0), Resume]
  }

  /** A descriptor becomes ready just as its time-out expires, and the call goes on to its second round. */
  lemma LateTimeOutHappens() returns (trace: seq<Call>)
    ensures IsPath(trace, FirstRound()) && trace[0] == Begin(true)
    ensures trace[6].pc == Checking && trace[6].cancelled == None && trace[6].timers == [HandedOut]
    ensures CanFailLater(trace[6], 0)
  {
    var s1 := Apply(Begin(true), Try(Again));
    var s2 := Apply(s1, Arm);
    var s3 := Apply(s2, Register(true));
    var s4 := Apply(s3, Fire);
    var s5 := Apply(s4, Expire(0));
    trace := [Begin(true), s1, s2, s3, s4, s5, Apply(s5, Resume)];
    LateTimeOut(trace, FirstRound(), 6, 0);
  }

  // ---------------------------------------------------------------- a time-out that is lost

  /** Time-outs alone, without readiness, can end the call. */
  ghost predicate CanTimeOut(s: Call) {
    exists trace: seq<Call>, steps: seq<Step> ::
      && IsPath(trace, steps) && trace[0] == s
      && Fire !in steps && trace[|steps|].pc == Done(TimedOut)
  }

  /** The flag is set and nobody is about to act on it. */
  predicate Lost(s: Call) {
    s.cancelled.Some? && forall k :: 0 <= k < |s.timers| ==> s.timers[k] != Striking
  }

  lemma {:induction false} StaysLost(trace: seq<Call>, steps: seq<Step>, n: nat)
    requires IsPath(trace, steps) && n < |trace| && Fire !in steps
    requires Lost(trace[0]) && trace[0].pc == Parked && !trace[0].woken
    ensures Lost(trace[n]) && trace[n].pc == Parked && !trace[n].woken
  {
    if n > 0 {
      StaysLost(trace, steps, n - 1);
      assert steps[n - 1] != Fire;
    }
  }

  lemma Swept(s: Call, k: nat) returns (trace: seq<Call>)
    requires s.pc == Parked && s.registered && s.cancelled.Some? && TimerIs(s, k, Striking)
    ensures IsPath(trace, [Sweep(k), Resume, Check]) && trace[0] == s && trace[3].pc == Done(TimedOut)
  {
    var s1 := Apply(s, Sweep(k));
    var s2 := Apply(s1, Resume);
    trace := [s, s1, s2, Apply(s2, Check)];
  }

  lemma Prepend(s: Call, step: Step)
    requires Can(s, step) && step != Fire && CanTimeOut(Apply(s, step))
    ensures CanTimeOut(s)
  {
    var trace: seq<Call>, steps: seq<Step> :|
      && IsPath(trace, steps) && trace[0] == Apply(s, step)
      && Fire !in steps && trace[|steps|].pc == Done(TimedOut);
    var more, extra := [s] + trace, [step] + steps;
    assert IsPath(more, extra) && more[0] == s;
    assert more[|extra|] == trace[|steps|];
  }

  lemma SweptTimesOut(s: Call, k: nat)
    requires s.pc == Parked && s.registered && s.cancelled.Some? && TimerIs(s, k, Striking)
    ensures CanTimeOut(s)
  {
    var trace := Swept(s, k);
    var steps := [Sweep(k), Resume, Check];
    assert trace[|steps|].pc == Done(TimedOut);
  }

  lemma RoundTimesOut(s: Call)
    requires Inv(s) && s.limited && s.pc == Parked && !s.woken && s.cancelled == None
    ensures CanTimeOut(s)
  {
    hide CanTimeOut;
    var r := |s.timers| - 1;
    assert TimerIs(s, r, s.timers[r]);
    if s.timers[r] == Armed {
      var t := Apply(s, Expire(r));
      SweptTimesOut(Apply(t, Strike(r)), r);
      Prepend(t, Strike(r));
      Prepend(s, Expire(r));
    } else {
      SweptTimesOut(Apply(s, Strike(r)), r);
      Prepend(s, Strike(r));
    }
  }

  /** The time-out can end a wait that readiness does not, if and only if the flag is still clear or its
      setter has not yet called `cancelEvent`. */
  lemma TimeOutArrives(trace: seq<Call>, steps: seq<Step>, n: nat)
    requires IsPath(trace, steps) && trace[0] == Begin(true) && n < |trace|
    requires trace[n].pc == Parked && !trace[n].woken
    ensures CanTimeOut(trace[n]) <==> !Lost(trace[n])
  {
    PathInv(trace, steps, n);
    var s := trace[n];
    if Lost(s) {
      forall more: seq<Call>, extra: seq<Step> | IsPath(more, extra) && more[0] == s && Fire !in extra
        ensures more[|extra|].pc != Done(TimedOut)
      {
        StaysLost(more, extra, |extra|);
      }
    } else if s.cancelled == None {
      RoundTimesOut(s);
    } else {
      var k :| 0 <= k < |s.timers| && s.timers[k] == Striking;
      SweptTimesOut(s, k);
    }
  }

  function EarlySteps(): seq<Step> {
    [Try(Again), Arm, Expire(0), Strike(0), Sweep(0), Register(true)]
  }

  /** The time-out runs before the event is registered: it finds nothing to cancel, and the wait that follows
      has no time-out. */
  lemma TimeOutLost() returns (trace: seq<Call>)
    ensures IsPath(trace, EarlySteps()) && trace[0] == Begin(true)
    ensures trace[6].pc == Parked && trace[6].registered && !CanTimeOut(trace[6])
  {
    var s1 := Apply(Begin(true), Try(Again));
    var s2 := Apply(s1, Arm);
    var s3 := Apply(s2, Expire(0));
    var s4 := Apply(s3, Strike(0));
    var s5 := Apply(s4, Sweep(0));
    trace := [Begin(true), s1, s2, s3, s4, s5, Apply(s5, Register(true))];
    TimeOutArrives(trace, EarlySteps(), 6);
  }
}
