/** The circuit breaker of common/circuit_breaker.py. A guarded call runs outside the breaker's
    lock, so the check that admits a call and the completion that records its outcome are separate
    atomic steps, and completions of calls admitted long ago may arrive in any state. */
module Breaker {
  datatype State = Closed | Open | HalfOpen

  datatype Config = Config(failureThreshold: int, timeout: int, successThreshold: int)

  ghost predicate ValidConfig(c: Config) {
    c.failureThreshold >= 1 && c.timeout >= 1 && c.successThreshold >= 1
  }

  datatype Metrics = Metrics(
    state: State, failures: nat, successes: nat, calls: nat,
    failureRun: nat, successRun: nat, changed: real)

  function Initial(now: real): Metrics { Metrics(Closed, 0, 0, 0, 0, 0, now) }

  // ---- Transitions and completions ----

  function ToOpen(m: Metrics, stamp: real): Metrics {
    m.(state := Open, changed := stamp, successRun := 0)
  }

  function ToHalfOpen(m: Metrics, stamp: real): Metrics {
    m.(state := HalfOpen, changed := stamp, successRun := 0, failureRun := 0)
  }

  function ToClosed(m: Metrics, stamp: real): Metrics {
    m.(state := Closed, changed := stamp, failures := 0, failureRun := 0, successRun := 0)
  }

  function OnSuccess(c: Config, m: Metrics, stamp: real): Metrics {
    var n := m.(successes := m.successes + 1, calls := m.calls + 1,
                successRun := m.successRun + 1, failureRun := 0);
    if n.state == HalfOpen && n.successRun >= c.successThreshold then ToClosed(n, stamp) else n
  }

  function OnFailure(c: Config, m: Metrics, stamp: real): Metrics {
    var n := m.(failures := m.failures + 1, calls := m.calls + 1,
                failureRun := m.failureRun + 1, successRun := 0);
    if n.state == HalfOpen || (n.failureRun >= c.failureThreshold && n.state != Open)
    then ToOpen(n, stamp) else n
  }

  /** The optional health check made when the breaker turns half-open; raising counts as unhealthy. */
  datatype Probe = NoProbe | Healthy | Unhealthy

  /** The check before a call, and whether the call is admitted. */
  function Check(c: Config, m: Metrics, now: real, stamp: real, probe: Probe): (Metrics, bool) {
    var n := if m.state == Open && now - m.changed > c.timeout as real
             then if probe == Unhealthy then ToOpen(ToHalfOpen(m, stamp), stamp) else ToHalfOpen(m, stamp)
             else m;
    (n, n.state != Open)
  }

  // ---- Interleaved runs ----

  /** An atomic step: a check that reads the clock at `now` and stamps any transition at `stamp`,
      or the completion of some admitted call. */
  datatype Event = Checked(now: real, stamp: real, probe: Probe) | Done(ok: bool, stamp: real)

  function Step(c: Config, m: Metrics, e: Event): Metrics {
    match e
    case Checked(now, stamp, probe) => Check(c, m, now, stamp, probe).0
    case Done(ok, stamp) => if ok then OnSuccess(c, m, stamp) else OnFailure(c, m, stamp)
  }

  function Run(c: Config, m: Metrics, es: seq<Event>): Metrics
    decreases |es|
  {
    if |es| == 0 then m else Run(c, Step(c, m, es[0]), es[1..])
  }

  function Begin(e: Event): real { if e.Checked? then e.now else e.stamp }

  /** Clock readings along the run never go back. */
  ghost predicate Timed(from: real, es: seq<Event>)
    decreases |es|
  {
    |es| == 0 || (from <= Begin(es[0]) <= es[0].stamp && Timed(es[0].stamp, es[1..]))
  }

  predicate Admits(c: Config, m: Metrics, e: Event) {
    e.Checked? && Check(c, m, e.now, e.stamp, e.probe).1
  }

  /** The step enters OPEN: a failure that trips it, or a probe that fails. */
  predicate Opens(c: Config, m: Metrics, e: Event) {
    Step(c, m, e).state == Open && (m.state != Open || (e.Checked? && e.now - m.changed > c.timeout as real))
  }

  // ---- Bounds that hold in every run ----

  ghost predicate Sane(c: Config, m: Metrics) {
    && (m.state == Closed ==> m.failureRun < c.failureThreshold)
    && (m.state == HalfOpen ==> m.failureRun == 0 && m.successRun < c.successThreshold)
    && (m.failureRun == 0 || m.successRun == 0)
    && m.successes + m.failures <= m.calls
  }

  lemma {:induction false} AlwaysSane(c: Config, m: Metrics, es: seq<Event>)
    requires ValidConfig(c) && Sane(c, m)
    ensures Sane(c, Run(c, m, es))
    decreases |es|
  {
    if |es| > 0 { AlwaysSane(c, Step(c, m, es[0]), es[1..]); }
  }

  lemma SaneFromTheStart(c: Config, now: real, es: seq<Event>)
    requires ValidConfig(c)
    ensures Sane(c, Run(c, Initial(now), es))
  {
    AlwaysSane(c, Initial(now), es);
  }

  // ---- No admission inside the window ----

  /** An opening at time o still holds at time t: the breaker has stayed open since, or its window
      has passed. */
  ghost predicate Held(c: Config, m: Metrics, o: real, t: real) {
    (m.state == Open && m.changed >= o) || t > o + c.timeout as real
  }

  lemma HeldStep(c: Config, m: Metrics, o: real, t: real, e: Event)
    requires Held(c, m, o, t) && o <= t <= Begin(e) <= e.stamp
    ensures Held(c, Step(c, m, e), o, e.stamp)
    ensures Admits(c, m, e) ==> e.now > o + c.timeout as real
  {}

  lemma {:induction false} HeldRun(c: Config, m: Metrics, o: real, t: real, es: seq<Event>, last: Event)
    requires Held(c, m, o, t) && o <= t && Timed(t, es + [last])
    requires Admits(c, Run(c, m, es), last)
    ensures last.now > o + c.timeout as real
    decreases |es|
  {
    if |es| == 0 {
      assert es + [last] == [last];
      HeldStep(c, m, o, t, last);
    } else {
      assert (es + [last])[1..] == es[1..] + [last];
      HeldStep(c, m, o, t, es[0]);
      HeldRun(c, Step(c, m, es[0]), o, es[0].stamp, es[1..], last);
    }
  }

  lemma {:induction false} TimedTail(from: real, es: seq<Event>, rest: seq<Event>)
    requires Timed(from, es + rest)
    ensures |es| > 0 ==> Timed(es[|es| - 1].stamp, rest)
    decreases |es|
  {
    if |es| > 0 {
      assert (es + rest)[1..] == es[1..] + rest;
      if |es| > 1 { TimedTail(es[0].stamp, es[1..], rest); }
      else { assert es[1..] + rest == rest; }
    }
  }

  /** However checks and completions interleave, no call is admitted until more than the timeout has
      passed since every earlier opening; a failed probe is an opening too. */
  lemma NoAdmissionInsideTheWindow(c: Config, m: Metrics, from: real, before: seq<Event>, opening: Event,
                                   between: seq<Event>, last: Event)
    requires Timed(from, before + [opening] + between + [last])
    requires Opens(c, Run(c, m, before), opening)
    requires Admits(c, Run(c, Step(c, Run(c, m, before), opening), between), last)
    ensures last.now > opening.stamp + c.timeout as real
  {
    var s := Step(c, Run(c, m, before), opening);
    assert before + [opening] + between + [last] == (before + [opening]) + (between + [last]);
    TimedTail(from, before + [opening], between + [last]);
    assert (before + [opening])[|before|] == opening;
    HeldRun(c, s, opening.stamp, opening.stamp, between, last);
  }

  // ---- State and counters as a fold over what happened ----

  datatype Mark = Success | Failure | WentOpen | WentHalfOpen | WentClosed

  /** What one step writes to the log. */
  function Marks(c: Config, m: Metrics, e: Event): seq<Mark> {
    var n := Step(c, m, e);
    match e
    case Checked(now, stamp, probe) =>
      if m.state == Open && now - m.changed > c.timeout as real
      then if probe == Unhealthy then [WentHalfOpen, WentOpen] else [WentHalfOpen] else []
    case Done(ok, stamp) =>
      [if ok then Success else Failure]
      + if n.state == m.state then [] else [if n.state == Open then WentOpen else WentClosed]
  }

  function Log(c: Config, m: Metrics, es: seq<Event>): seq<Mark>
    decreases |es|
  {
    if |es| == 0 then [] else Marks(c, m, es[0]) + Log(c, Step(c, m, es[0]), es[1..])
  }

  /** The state after the last transition logged. */
  function StateOf(log: seq<Mark>): State {
    if |log| == 0 then Closed else
      match log[|log| - 1]
      case WentOpen => Open
      case WentHalfOpen => HalfOpen
      case WentClosed => Closed
      case _ => StateOf(log[..|log| - 1])
  }

  /** Failures at the end of the log; opening does not end the run, any success or other transition does. */
  function FailuresAtEnd(log: seq<Mark>): nat {
    if |log| == 0 then 0 else
      match log[|log| - 1]
      case Failure => FailuresAtEnd(log[..|log| - 1]) + 1
      case WentOpen => FailuresAtEnd(log[..|log| - 1])
      case _ => 0
  }

  function SuccessesAtEnd(log: seq<Mark>): nat {
    if |log| > 0 && log[|log| - 1] == Success then SuccessesAtEnd(log[..|log| - 1]) + 1 else 0
  }

  function CallsIn(log: seq<Mark>): nat {
    if |log| == 0 then 0 else
      CallsIn(log[..|log| - 1]) + if log[|log| - 1] in {Success, Failure} then 1 else 0
  }

  function SuccessesIn(log: seq<Mark>): nat {
    if |log| == 0 then 0 else SuccessesIn(log[..|log| - 1]) + if log[|log| - 1] == Success then 1 else 0
  }

  /** Failures since the breaker last closed. */
  function FailuresSinceClosed(log: seq<Mark>): nat {
    if |log| == 0 || log[|log| - 1] == WentClosed then 0 else
      FailuresSinceClosed(log[..|log| - 1]) + if log[|log| - 1] == Failure then 1 else 0
  }

  ghost predicate Folds(m: Metrics, log: seq<Mark>) {
    && m.state == StateOf(log) && m.failureRun == FailuresAtEnd(log) && m.successRun == SuccessesAtEnd(log)
    && m.calls == CallsIn(log) && m.successes == SuccessesIn(log) && m.failures == FailuresSinceClosed(log)
  }

  /** What a mark at the end of a log does to each of its folds. */
  lemma FoldsMore(log: seq<Mark>, mark: Mark)
    ensures var more := log + [mark];
            && StateOf(more) == (match mark case WentOpen => Open case WentHalfOpen => HalfOpen
                                 case WentClosed => Closed case _ => StateOf(log))
            && FailuresAtEnd(more) == (match mark case Failure => FailuresAtEnd(log) + 1
                                       case WentOpen => FailuresAtEnd(log) case _ => 0)
            && SuccessesAtEnd(more) == (if mark == Success then SuccessesAtEnd(log) + 1 else 0)
            && CallsIn(more) == CallsIn(log) + (if mark == Success || mark == Failure then 1 else 0)
            && SuccessesIn(more) == SuccessesIn(log) + (if mark == Success then 1 else 0)
            && FailuresSinceClosed(more) == (if mark == WentClosed then 0
                                             else FailuresSinceClosed(log) + if mark == Failure then 1 else 0)
  {
    assert (log + [mark])[..|log|] == log;
  }

  lemma FoldsStep(c: Config, m: Metrics, log: seq<Mark>, e: Event)
    requires Folds(m, log)
    ensures Folds(Step(c, m, e), log + Marks(c, m, e))
  {
    hide StateOf, FailuresAtEnd, SuccessesAtEnd, CallsIn, SuccessesIn, FailuresSinceClosed;
    var ms := Marks(c, m, e);
    if |ms| == 0 {
      assert log + ms == log;
    } else {
      FoldsMore(log, ms[0]);
      if |ms| == 1 {
        assert log + ms == log + [ms[0]];
      } else {
        FoldsMore(log + [ms[0]], ms[1]);
        assert log + ms == log + [ms[0]] + [ms[1]];
      }
    }
  }

  /** Refinement: after any run the breaker's state and counters are the folds of its log. */
  lemma {:induction false} RunFoldsItsLog(c: Config, m: Metrics, log: seq<Mark>, es: seq<Event>)
    requires Folds(m, log)
    ensures Folds(Run(c, m, es), log + Log(c, m, es))
    decreases |es|
  {
    if |es| == 0 {
      assert log + Log(c, m, es) == log;
    } else {
      FoldsStep(c, m, log, es[0]);
      RunFoldsItsLog(c, Step(c, m, es[0]), log + Marks(c, m, es[0]), es[1..]);
      assert log + Log(c, m, es) == log + Marks(c, m, es[0]) + Log(c, Step(c, m, es[0]), es[1..]);
    }
  }

  // ---- Who is admitted ----

  /** A check is admitted unless the breaker is open and its window has not passed, or it has and the probe
      finds the service unhealthy. Only an admission out of OPEN changes the state, to HALF_OPEN. */
  lemma AdmittedUnlessOpen(c: Config, m: Metrics, now: real, stamp: real, probe: Probe)
    ensures var e := Checked(now, stamp, probe);
            && (Admits(c, m, e) <==> m.state != Open || (now - m.changed > c.timeout as real && probe != Unhealthy))
            && (m.state != Open || now - m.changed <= c.timeout as real ==> Step(c, m, e) == m)
            && (m.state == Open && Admits(c, m, e) ==> Step(c, m, e).state == HalfOpen)
            && (m.state == Open && now - m.changed > c.timeout as real ==> Step(c, m, e).changed == stamp)
  {}

  /** In every interleaving, a check made while the last transition in the log is not an opening is admitted:
      in particular every one before the first. */
  lemma AdmittedWhileNotOpen(c: Config, start: real, es: seq<Event>, now: real, stamp: real, probe: Probe)
    requires StateOf(Log(c, Initial(start), es)) != Open
    ensures Admits(c, Run(c, Initial(start), es), Checked(now, stamp, probe))
  {
    RunFoldsItsLog(c, Initial(start), [], es);
    assert [] + Log(c, Initial(start), es) == Log(c, Initial(start), es);
  }

  /** None of the steps is a transition. */
  ghost predicate NoTransition(c: Config, m: Metrics, es: seq<Event>)
    decreases |es|
  {
    |es| == 0
    || (Step(c, m, es[0]).state == m.state && !Opens(c, m, es[0]) && NoTransition(c, Step(c, m, es[0]), es[1..]))
  }

  lemma {:induction false} OpenSince(c: Config, m: Metrics, es: seq<Event>)
    requires m.state == Open && NoTransition(c, m, es)
    ensures Run(c, m, es).state == Open && Run(c, m, es).changed == m.changed
    decreases |es|
  {
    if |es| > 0 { OpenSince(c, Step(c, m, es[0]), es[1..]); }
  }

  /** After an opening, whatever completes or is refused in between, the next check past the window is
      admitted unless its probe fails, and none before. */
  lemma AdmittedAgainAfterTheWindow(c: Config, m: Metrics, before: seq<Event>, opening: Event, between: seq<Event>,
                                    now: real, stamp: real, probe: Probe)
    requires Opens(c, Run(c, m, before), opening)
    requires NoTransition(c, Step(c, Run(c, m, before), opening), between)
    ensures Admits(c, Run(c, Step(c, Run(c, m, before), opening), between), Checked(now, stamp, probe))
            <==> now - opening.stamp > c.timeout as real && probe != Unhealthy
  {
    var s := Step(c, Run(c, m, before), opening);
    assert s.changed == opening.stamp;
    hide Run;
    OpenSince(c, s, between);
    AdmittedUnlessOpen(c, Run(c, s, between), now, stamp, probe);
  }

  // ---- Outcomes alone ----

  /** Outcomes recorded one after another. */
  function Record(c: Config, m: Metrics, outcomes: seq<bool>, stamp: real): Metrics {
    if |outcomes| == 0 then m else
      Step(c, Record(c, m, outcomes[..|outcomes| - 1], stamp), Done(outcomes[|outcomes| - 1], stamp))
  }

  ghost predicate AllFail(outcomes: seq<bool>, i: int, n: int) {
    0 <= i <= |outcomes| - n && forall k :: i <= k < i + n ==> !outcomes[k]
  }

  /** Somewhere in the list, n failures stand in a row. */
  ghost predicate HasFailures(outcomes: seq<bool>, n: int)
    requires n >= 1
  {
    exists i :: AllFail(outcomes, i, n)
  }

  /** Failures at the end of a list of outcomes. */
  ghost function Tail(outcomes: seq<bool>): (n: nat)
    ensures n <= |outcomes| && forall k :: |outcomes| - n <= k < |outcomes| ==> !outcomes[k]
    ensures n < |outcomes| ==> outcomes[|outcomes| - n - 1]
  {
    if |outcomes| == 0 || outcomes[|outcomes| - 1] then 0 else Tail(outcomes[..|outcomes| - 1]) + 1
  }

  lemma HasFailuresAtEnd(outcomes: seq<bool>, n: int)
    requires |outcomes| > 0 && n >= 1
    ensures HasFailures(outcomes, n) <==> HasFailures(outcomes[..|outcomes| - 1], n) || Tail(outcomes) >= n
  {
    var init := outcomes[..|outcomes| - 1];
    if HasFailures(outcomes, n) {
      var i :| AllFail(outcomes, i, n);
      if i + n <= |init| {
        assert AllFail(init, i, n);
      }
    }
    if HasFailures(init, n) {
      var i :| AllFail(init, i, n);
      assert forall k :: i <= k < i + n ==> outcomes[k] == init[k];
      assert AllFail(outcomes, i, n);
    }
    if Tail(outcomes) >= n {
      assert AllFail(outcomes, |outcomes| - n, n);
    }
  }

  /** From a fresh closed breaker, it is open exactly once the outcomes contain the threshold of
      consecutive failures; until then it is closed, and counts the failures at the end. */
  lemma {:induction false} OpensAtTheFirstRun(c: Config, m: Metrics, outcomes: seq<bool>, stamp: real)
    requires ValidConfig(c) && m.state == Closed && m.failureRun == 0
    ensures var r := Record(c, m, outcomes, stamp);
            && r.state == (if HasFailures(outcomes, c.failureThreshold) then Open else Closed)
            && r.failureRun == Tail(outcomes)
  {
    if |outcomes| > 0 {
      OpensAtTheFirstRun(c, m, outcomes[..|outcomes| - 1], stamp);
      HasFailuresAtEnd(outcomes, c.failureThreshold);
    }
  }

  /** Successes at the front of a list of outcomes. */
  ghost function Leading(outcomes: seq<bool>): (n: nat)
    ensures n <= |outcomes| && forall k :: 0 <= k < n ==> outcomes[k]
    ensures n < |outcomes| ==> !outcomes[n]
  {
    if |outcomes| == 0 || !outcomes[0] then 0 else Leading(outcomes[1..]) + 1
  }

  lemma {:induction false} RecordSplit(c: Config, m: Metrics, a: seq<bool>, b: seq<bool>, stamp: real)
    ensures Record(c, m, a + b, stamp) == Record(c, Record(c, m, a, stamp), b, stamp)
  {
    if |b| == 0 {
      assert a + b == a;
    } else {
      assert (a + b)[..|a + b| - 1] == a + b[..|b| - 1];
      RecordSplit(c, m, a, b[..|b| - 1], stamp);
    }
  }

  lemma {:induction false} OpenStaysOpen(c: Config, m: Metrics, outcomes: seq<bool>, stamp: real)
    requires m.state == Open
    ensures Record(c, m, outcomes, stamp).state == Open
  {
    if |outcomes| > 0 { OpenStaysOpen(c, m, outcomes[..|outcomes| - 1], stamp); }
  }

  lemma {:induction false} SuccessesSoFar(c: Config, m: Metrics, outcomes: seq<bool>, stamp: real)
    requires ValidConfig(c) && m.state == HalfOpen && m.failureRun == 0 && m.successRun == 0
    requires |outcomes| <= c.successThreshold && forall k :: 0 <= k < |outcomes| ==> outcomes[k]
    ensures var r := Record(c, m, outcomes, stamp);
            && r.failureRun == 0
            && (|outcomes| < c.successThreshold ==> r.state == HalfOpen && r.successRun == |outcomes|)
            && (|outcomes| == c.successThreshold ==> r.state == Closed)
  {
    if |outcomes| > 0 { SuccessesSoFar(c, m, outcomes[..|outcomes| - 1], stamp); }
  }

  lemma OneFailureReopens(c: Config, m: Metrics, stamp: real)
    requires m.state == HalfOpen
    ensures Record(c, m, [false], stamp).state == Open
  {
    assert Record(c, m, [false], stamp) == Step(c, Record(c, m, [], stamp), Done(false, stamp));
  }

  /** From entering half-open: closed exactly when the first `successThreshold` outcomes recorded are
      all successes, after which it behaves as a fresh closed breaker; open as soon as one of them
      fails; half-open while all so far succeeded and there are too few. */
  lemma HalfOpenDecides(c: Config, m: Metrics, outcomes: seq<bool>, stamp: real)
    requires ValidConfig(c) && m.state == HalfOpen && m.failureRun == 0 && m.successRun == 0
    ensures var r, n, good := Record(c, m, outcomes, stamp), c.successThreshold, Leading(outcomes);
            if good >= n then
              && r.failureRun == Tail(outcomes[n..])
              && r.state == if HasFailures(outcomes[n..], c.failureThreshold) then Open else Closed
            else if good == |outcomes| then r.state == HalfOpen && r.successRun == good
            else r.state == Open
  {
    hide Record, HasFailures, Tail;
    var n, good := c.successThreshold, Leading(outcomes);
    var k := if good < n then good else n;
    SuccessesSoFar(c, m, outcomes[..k], stamp);
    var s := Record(c, m, outcomes[..k], stamp);
    assert outcomes == outcomes[..k] + outcomes[k..];
    RecordSplit(c, m, outcomes[..k], outcomes[k..], stamp);
    if good >= n {
      OpensAtTheFirstRun(c, s, outcomes[n..], stamp);
    } else if good < |outcomes| {
      assert outcomes[k..] == [false] + outcomes[k + 1..];
      RecordSplit(c, s, [false], outcomes[k + 1..], stamp);
      OneFailureReopens(c, s, stamp);
      OpenStaysOpen(c, Record(c, s, [false], stamp), outcomes[k + 1..], stamp);
    } else {
      assert outcomes[..k] == outcomes;
    }
  }

  // ---- The breaker object ----

  class CircuitBreaker {
    const failureThreshold: int
    const timeout: int
    const successThreshold: int
    var state: State
    var failureCount: nat
    var successCount: nat
    var totalCalls: nat
    var consecutiveFailures: nat
    var consecutiveSuccesses: nat
    var stateChangeTime: real

    ghost function Settings(): Config { Config(failureThreshold, timeout, successThreshold) }

    ghost function View(): Metrics
      reads this
    {
      Metrics(state, failureCount, successCount, totalCalls,
              consecutiveFailures, consecutiveSuccesses, stateChangeTime)
    }

    constructor (failureThreshold: int, timeout: int, successThreshold: int, now: real)
      requires failureThreshold >= 1 && timeout >= 1 && successThreshold >= 1
      ensures View() == Initial(now) && ValidConfig(Settings())
      ensures Settings() == Config(failureThreshold, timeout, successThreshold)
    {
      this.failureThreshold, this.timeout := failureThreshold, timeout;
      this.successThreshold := successThreshold;
      state, stateChangeTime := Closed, now;
      failureCount, successCount, totalCalls := 0, 0, 0;
      consecutiveFailures, consecutiveSuccesses := 0, 0;
    }

    method TransitionToOpen(stamp: real)
      modifies this
      ensures View() == ToOpen(old(View()), stamp)
    {
      state := Open;
      stateChangeTime := stamp;
      consecutiveSuccesses := 0;
    }

    method TransitionToHalfOpen(stamp: real)
      modifies this
      ensures View() == ToHalfOpen(old(View()), stamp)
    {
      state := HalfOpen;
      stateChangeTime := stamp;
      consecutiveSuccesses := 0;
      consecutiveFailures := 0;
    }

    method TransitionToClosed(stamp: real)
      modifies this
      ensures View() == ToClosed(old(View()), stamp)
    {
      state := Closed;
      stateChangeTime := stamp;
      failureCount := 0;
      consecutiveFailures := 0;
      consecutiveSuccesses := 0;
    }

    /** The locked part of `call` before the function runs; refusal raises CircuitBreakerOpen. */
    method Admit(now: real, stamp: real, probe: Probe) returns (admitted: bool)
      modifies this
      ensures (View(), admitted) == Check(Settings(), old(View()), now, stamp, probe)
      ensures var past := now - old(stateChangeTime) > timeout as real;
              && (admitted <==> old(state) != Open || (past && probe != Unhealthy))
              && (old(state) != Open || !past ==> View() == old(View()))
              && (old(state) == Open && past ==>
                    stateChangeTime == stamp && state == if admitted then HalfOpen else Open)
    {
      if state == Open {
        var sinceOpen := now - stateChangeTime;
        if sinceOpen > timeout as real {
          TransitionToHalfOpen(stamp);
          if probe == Unhealthy { TransitionToOpen(stamp); }
        }
      }
      admitted := state != Open;
    }

    method RecordSuccess(stamp: real)
      modifies this
      ensures View() == OnSuccess(Settings(), old(View()), stamp)
      ensures var closes := old(state) == HalfOpen && old(consecutiveSuccesses) + 1 >= successThreshold;
              && state == (if closes then Closed else old(state))
              && successCount == old(successCount) + 1 && totalCalls == old(totalCalls) + 1
              && consecutiveFailures == 0
              && consecutiveSuccesses == (if closes then 0 else old(consecutiveSuccesses) + 1)
              && failureCount == (if closes then 0 else old(failureCount))
              && stateChangeTime == if closes then stamp else old(stateChangeTime)
    {
      successCount := successCount + 1;
      totalCalls := totalCalls + 1;
      consecutiveSuccesses := consecutiveSuccesses + 1;
      consecutiveFailures := 0;
      if state == HalfOpen && consecutiveSuccesses >= successThreshold { TransitionToClosed(stamp); }
    }

    method RecordFailure(stamp: real)
      modifies this
      ensures View() == OnFailure(Settings(), old(View()), stamp)
      ensures var opens := old(state) == HalfOpen
                           || (old(state) == Closed && old(consecutiveFailures) + 1 >= failureThreshold);
              && state == (if opens then Open else old(state))
              && failureCount == old(failureCount) + 1 && totalCalls == old(totalCalls) + 1
              && successCount == old(successCount)
              && consecutiveFailures == old(consecutiveFailures) + 1 && consecutiveSuccesses == 0
              && stateChangeTime == if opens then stamp else old(stateChangeTime)
    {
      failureCount := failureCount + 1;
      totalCalls := totalCalls + 1;
      consecutiveFailures := consecutiveFailures + 1;
      consecutiveSuccesses := 0;
      if state == HalfOpen {
        TransitionToOpen(stamp);
      } else if consecutiveFailures >= failureThreshold {
        if state != Open { TransitionToOpen(stamp); }
      }
    }

    /** A call that nothing overtakes: refused without running, or run and its outcome recorded. */
    method Call(now: real, stamp: real, probe: Probe, ok: bool, done: real) returns (ran: bool)
      modifies this
      ensures ran <==> old(state) != Open
                       || (now - old(stateChangeTime) > timeout as real && probe != Unhealthy)
      ensures ran ==> totalCalls == old(totalCalls) + 1 && successCount == old(successCount) + if ok then 1 else 0
      ensures !ran ==> state == Open && totalCalls == old(totalCalls)
      ensures var checked := Step(Settings(), old(View()), Checked(now, stamp, probe));
              View() == if ran then Step(Settings(), checked, Done(ok, done)) else checked
    {
      ran := Admit(now, stamp, probe);
      if !ran { return; }
      if ok { RecordSuccess(done); } else { RecordFailure(done); }
    }
  }
}
