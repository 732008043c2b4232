/** The reconnect breaker inside IBKRExecutionEngine (execution/ibkr_engine.py): five failed rounds
    close the door for a window that doubles each cycle up to four times its base, and enough cycles
    declare the gateway dead until an operator resets it. */
module Reconnect {
  const MAX_FAILURES: nat := 5

  /** `base` reset window and the number of cycles that declares the gateway dead. */
  datatype Config = Config(base: real, maxDead: int)

  datatype Link = Link(failures: nat, cycle: nat, window: real, dead: bool, lastFailure: real)

  function Fresh(c: Config): Link { Link(0, 0, c.base, false, 0.0) }

  /** What a call to `_ensure_connected` ends in; all but the first raise ConnectionError. */
  datatype Outcome = Connected | Dead | Refused | Failed

  /** A call: whether a live connection exists, the time it is made, how each connection attempt of
      the round would go, and the time stamped if all fail. Or the operator's reset. */
  datatype Event = Ensure(live: bool, now: real, attempts: seq<bool>, failedAt: real) | Reset(now: real)

  /** The round of attempts: the first that connects ends it. */
  function Attempt(l: Link, attempts: seq<bool>, failedAt: real): (Link, Outcome) {
    if true in attempts then (l.(failures := 0), Connected)
    else (l.(failures := l.failures + 1, lastFailure := failedAt), Failed)
  }

  function EnsureStep(c: Config, l: Link, live: bool, now: real, attempts: seq<bool>, failedAt: real): (Link, Outcome) {
    if live then (l.(failures := 0), Connected)
    else if l.dead then (l, Dead)
    else if l.failures >= MAX_FAILURES then
      if now - l.lastFailure >= l.window then
        var next := l.(cycle := l.cycle + 1, failures := 0,
                       window := if l.window * 2.0 <= c.base * 4.0 then l.window * 2.0 else c.base * 4.0);
        if next.cycle >= c.maxDead then (next.(dead := true), Dead) else Attempt(next, attempts, failedAt)
      else (l, Refused)
    else Attempt(l, attempts, failedAt)
  }

  function Step(c: Config, l: Link, e: Event): (Link, Outcome) {
    match e
    case Ensure(live, now, attempts, failedAt) => EnsureStep(c, l, live, now, attempts, failedAt)
    case Reset(now) => (l.(dead := false, cycle := 0, window := c.base, failures := 0), Connected)
  }

  function Run(c: Config, l: Link, es: seq<Event>): Link
    decreases |es|
  {
    if |es| == 0 then l else Run(c, Step(c, l, es[0]).0, es[1..])
  }

  // ---- Bounds in every run ----

  /** The cycle that kills: at least one auto-reset has to happen. */
  function Limit(c: Config): nat { if c.maxDead > 1 then c.maxDead else 1 }

  /** min(2^cycle, 4) */
  function Factor(cycle: nat): real { if cycle == 0 then 1.0 else if cycle == 1 then 2.0 else 4.0 }

  ghost predicate Sane(c: Config, l: Link) {
    && l.failures <= MAX_FAILURES && l.cycle <= Limit(c)
    && (l.dead <==> l.cycle == Limit(c))
    && (l.dead ==> l.failures == 0)
    && l.window == c.base * Factor(l.cycle)
  }

  lemma {:induction false} AlwaysSane(c: Config, l: Link, es: seq<Event>)
    requires c.base >= 0.0 && Sane(c, l)
    ensures Sane(c, Run(c, l, es))
    decreases |es|
  {
    if |es| > 0 { AlwaysSane(c, Step(c, l, es[0]).0, es[1..]); }
  }

  /** Every run of a fresh engine: cycles stay within the limit, dead exactly at the limit, the window
      is the base times min(2^cycle, 4), and at most five failures are ever counted. */
  lemma SaneFromTheStart(c: Config, es: seq<Event>)
    requires c.base >= 0.0
    ensures Sane(c, Run(c, Fresh(c), es))
  {
    AlwaysSane(c, Fresh(c), es);
  }

  ghost predicate NoReset(es: seq<Event>) { forall e :: e in es ==> e.Ensure? }

  /** Dead is absorbing until the operator steps in, and cycles never go down: not even a successful
      connection lowers them. */
  lemma {:induction false} DeadIsAbsorbing(c: Config, l: Link, es: seq<Event>)
    requires NoReset(es)
    ensures Run(c, l, es).cycle >= l.cycle
    ensures l.dead ==> Run(c, l, es).dead && Run(c, l, es).cycle == l.cycle
    decreases |es|
  {
    if |es| > 0 {
      assert forall e :: e in es[1..] ==> e in es;
      DeadIsAbsorbing(c, Step(c, l, es[0]).0, es[1..]);
    }
  }

  // ---- Failing rounds ----

  function FailedRounds(c: Config, l: Link, es: seq<Event>): nat
    decreases |es|
  {
    if |es| == 0 then 0 else
      (if Step(c, l, es[0]).1 == Failed then 1 else 0) + FailedRounds(c, Step(c, l, es[0]).0, es[1..])
  }

  ghost predicate NeverConnects(c: Config, l: Link, es: seq<Event>)
    decreases |es|
  {
    |es| == 0 || (Step(c, l, es[0]).1 != Connected && NeverConnects(c, Step(c, l, es[0]).0, es[1..]))
  }

  /** With no success and no reset, each cycle used up exactly five failing rounds. */
  lemma {:induction false} RoundsAreCounted(c: Config, l: Link, es: seq<Event>)
    requires c.base >= 0.0 && Sane(c, l) && NeverConnects(c, l, es)
    ensures var r := Run(c, l, es);
            MAX_FAILURES * l.cycle + l.failures + FailedRounds(c, l, es) == MAX_FAILURES * r.cycle + r.failures
    decreases |es|
  {
    if |es| > 0 {
      AlwaysSane(c, l, [es[0]]);
      assert Run(c, l, [es[0]]) == Step(c, l, es[0]).0;
      RoundsAreCounted(c, Step(c, l, es[0]).0, es[1..]);
    }
  }

  /** An engine that never connects makes at most five failing rounds per allowed cycle, and has
      made exactly that many when it is declared dead. */
  lemma FailingRoundsAreBounded(c: Config, es: seq<Event>)
    requires c.base >= 0.0 && NeverConnects(c, Fresh(c), es)
    ensures FailedRounds(c, Fresh(c), es) <= MAX_FAILURES * Limit(c)
    ensures Run(c, Fresh(c), es).dead ==> FailedRounds(c, Fresh(c), es) == MAX_FAILURES * Limit(c)
  {
    AlwaysSane(c, Fresh(c), es);
    RoundsAreCounted(c, Fresh(c), es);
  }

  // ---- How long death takes ----

  /** Waiting that the first n cycles cost: the base times the sum of min(2^i, 4). */
  function Waited(c: Config, n: nat): real {
    if n == 0 then 0.0 else Waited(c, n - 1) + c.base * Factor(n - 1)
  }

  function Begin(e: Event): real { e.now }

  function End(e: Event): real { if e.Ensure? then e.failedAt else e.now }

  ghost predicate Timed(from: real, es: seq<Event>)
    decreases |es|
  {
    |es| == 0 || (from <= Begin(es[0]) <= End(es[0]) && Timed(End(es[0]), es[1..]))
  }

  function Finished(from: real, es: seq<Event>): real { if |es| == 0 then from else End(es[|es| - 1]) }

  ghost predicate Paid(c: Config, l: Link, t0: real, t: real) {
    && t >= t0 + Waited(c, l.cycle)
    && (l.failures > 0 ==> l.lastFailure >= t0 + Waited(c, l.cycle))
  }

  lemma {:induction false} WaitingIsPaid(c: Config, l: Link, t0: real, t: real, es: seq<Event>)
    requires c.base >= 0.0 && Sane(c, l) && Paid(c, l, t0, t) && NoReset(es) && Timed(t, es)
    ensures Paid(c, Run(c, l, es), t0, Finished(t, es))
    decreases |es|
  {
    if |es| > 0 {
      AlwaysSane(c, l, [es[0]]);
      assert Run(c, l, [es[0]]) == Step(c, l, es[0]).0;
      assert es[0] in es && forall e :: e in es[1..] ==> e in es;
      WaitingIsPaid(c, Step(c, l, es[0]).0, t0, End(es[0]), es[1..]);
    }
  }

  /** No engine is declared dead before the windows of all its cycles have been waited out, however
      many connections succeed in between. */
  lemma DeathTakesItsTime(c: Config, start: real, es: seq<Event>)
    requires c.base >= 0.0 && NoReset(es) && Timed(start, es)
    requires Run(c, Fresh(c), es).dead
    ensures Finished(start, es) >= start + Waited(c, Limit(c))
  {
    AlwaysSane(c, Fresh(c), es);
    WaitingIsPaid(c, Fresh(c), start, start, es);
  }

  // ---- Success does not forgive cycles ----

  /** Five rounds at time t with the attempts of `bad`, then one with those of `good` once the window has
      passed. */
  function Outage(t: real, later: real, bad: seq<bool>, good: seq<bool>): seq<Event> {
    var fail := Ensure(false, t, bad, t);
    [fail, fail, fail, fail, fail, Ensure(false, later, good, later)]
  }

  /** No attempt of the bad rounds connects, and some attempt of the good ones would, the first or a later one. */
  predicate Recovers(bad: seq<bool>, good: seq<bool>) { true !in bad && true in good }

  /** An outage that ends in a working connection still costs a cycle; the last one allowed kills the
      engine although the connection would have succeeded. */
  lemma OutageCostsACycle(c: Config, l: Link, t: real, later: real, bad: seq<bool>, good: seq<bool>)
    requires !l.dead && l.failures == 0 && later - t >= l.window && Recovers(bad, good)
    ensures var r := Run(c, l, Outage(t, later, bad, good));
            && r.cycle == l.cycle + 1 && r.failures == 0
            && (r.dead <==> l.cycle + 1 >= c.maxDead)
  {
    var es := Outage(t, later, bad, good);
    var l1 := l.(failures := 1, lastFailure := t);
    assert Run(c, l, es) == Run(c, l1, es[1..]);
    var l2 := l1.(failures := 2);
    assert Run(c, l1, es[1..]) == Run(c, l2, es[1..][1..]);
    var l3 := l2.(failures := 3);
    assert Run(c, l2, es[1..][1..]) == Run(c, l3, es[1..][1..][1..]);
    var l4 := l3.(failures := 4);
    assert Run(c, l3, es[1..][1..][1..]) == Run(c, l4, es[1..][1..][1..][1..]);
    var l5 := l4.(failures := 5);
    var end := es[1..][1..][1..][1..][1..];
    assert Run(c, l4, es[1..][1..][1..][1..]) == Run(c, l5, end);
    assert end == [Ensure(false, later, good, later)] && end[1..] == [];
    assert Run(c, l5, end) == Step(c, l5, end[0]).0;
  }

  lemma {:induction false} RunSplit(c: Config, l: Link, a: seq<Event>, b: seq<Event>)
    ensures Run(c, l, a + b) == Run(c, Run(c, l, a), b)
    decreases |a|
  {
    hide Step;
    if |a| == 0 {
      assert a + b == b;
    } else {
      assert (a + b)[1..] == a[1..] + b;
      RunSplit(c, Step(c, l, a[0]).0, a[1..], b);
    }
  }

  /** Outages one after another, each given by when it starts and when it is over. */
  function Outages(times: seq<(real, real)>, bad: seq<bool>, good: seq<bool>): seq<Event> {
    if |times| == 0 then [] else Outage(times[0].0, times[0].1, bad, good) + Outages(times[1..], bad, good)
  }

  /** A dead engine stays as it is through an outage. */
  lemma OutageOfTheDead(c: Config, l: Link, t: real, later: real, bad: seq<bool>, good: seq<bool>)
    requires l.dead
    ensures Run(c, l, Outage(t, later, bad, good)) == l
  {
    DeadStays(c, l, Outage(t, later, bad, good));
  }

  lemma {:induction false} DeadStays(c: Config, l: Link, es: seq<Event>)
    requires l.dead && forall i :: 0 <= i < |es| ==> es[i].Ensure? && !es[i].live
    ensures Run(c, l, es) == l
    decreases |es|
  {
    if |es| > 0 { DeadStays(c, l, es[1..]); }
  }

  /** Separate outages add up, though every one of them ends in a connection that would succeed: after n of
      them, each longer than any window, an engine is at cycle n, or dead at its limit. */
  lemma {:induction false} OutagesAddUp(c: Config, l: Link, times: seq<(real, real)>, bad: seq<bool>, good: seq<bool>)
    requires c.base >= 0.0 && Sane(c, l) && l.failures == 0 && Recovers(bad, good)
    requires forall i :: 0 <= i < |times| ==> times[i].1 - times[i].0 >= 4.0 * c.base
    ensures var r, n := Run(c, l, Outages(times, bad, good)), l.cycle + |times|;
            && r.cycle == (if n < Limit(c) then n else Limit(c)) && r.failures == 0
            && (r.dead <==> n >= Limit(c))
    decreases |times|
  {
    hide Run, Outage;
    if |times| == 0 {
      RunNothing(c, l);
    } else {
      var one := Outage(times[0].0, times[0].1, bad, good);
      var m := Run(c, l, one);
      RunSplit(c, l, one, Outages(times[1..], bad, good));
      AlwaysSane(c, l, one);
      if l.dead {
        OutageOfTheDead(c, l, times[0].0, times[0].1, bad, good);
      } else {
        WindowIsBounded(c, l);
        OutageCostsACycle(c, l, times[0].0, times[0].1, bad, good);
      }
      OutagesAddUp(c, m, times[1..], bad, good);
    }
  }

  lemma RunNothing(c: Config, l: Link)
    ensures Run(c, l, []) == l
  {}

  lemma WindowIsBounded(c: Config, l: Link)
    requires c.base >= 0.0 && Sane(c, l)
    ensures l.window <= 4.0 * c.base
  {}

  /** A fresh engine dies of its Limit-th outage, however far apart they are. */
  lemma OutagesKill(c: Config, times: seq<(real, real)>, bad: seq<bool>, good: seq<bool>)
    requires c.base >= 0.0 && Recovers(bad, good)
    requires forall i :: 0 <= i < |times| ==> times[i].1 - times[i].0 >= 4.0 * c.base
    ensures var r := Run(c, Fresh(c), Outages(times, bad, good));
            && r.cycle == (if |times| < Limit(c) then |times| else Limit(c))
            && (r.dead <==> |times| >= Limit(c))
  {
    OutagesAddUp(c, Fresh(c), times, bad, good);
  }

  // ---- The engine's fields ----

  class Gateway {
    const base: real
    const maxDead: int
    var failures: nat
    var cycle: nat
    var window: real
    var dead: bool
    var lastFailure: real

    ghost function Settings(): Config { Config(base, maxDead) }

    ghost function View(): Link
      reads this
    {
      Link(failures, cycle, window, dead, lastFailure)
    }

    constructor (base: real, maxDead: int)
      ensures Settings() == Config(base, maxDead) && View() == Fresh(Settings())
    {
      this.base, this.maxDead := base, maxDead;
      failures, cycle, window, dead, lastFailure := 0, 0, base, false, 0.0;
    }

    method EnsureConnected(live: bool, now: real, attempts: seq<bool>, failedAt: real) returns (r: Outcome)
      modifies this
      ensures (View(), r) == EnsureStep(Settings(), old(View()), live, now, attempts, failedAt)
      ensures r == Connected <==>
                live || (r != Dead && r != Refused && exists i :: 0 <= i < |attempts| && attempts[i])
      ensures r == Dead <==>
                !live && (old(dead) || (old(failures) >= 5 && now - old(lastFailure) >= old(window)
                                        && old(cycle) + 1 >= maxDead))
      ensures r == Refused <==> !live && !old(dead) && old(failures) >= 5 && now - old(lastFailure) < old(window)
      ensures r == Connected ==> failures == 0 && lastFailure == old(lastFailure)
      ensures r == Failed ==> failures == (if old(failures) >= 5 then 0 else old(failures)) + 1
                              && lastFailure == failedAt
      ensures live || old(dead) || r == Refused || old(failures) < 5 ==>
                cycle == old(cycle) && window == old(window) && dead == old(dead)
      ensures !live && !old(dead) && r != Refused && old(failures) >= 5 ==>
                cycle == old(cycle) + 1 && (dead <==> r == Dead)
                && (window == old(window) * 2.0 || window == base * 4.0)
                && window <= old(window) * 2.0 && window <= base * 4.0
      ensures r == Refused || (!live && old(dead)) ==> View() == old(View())
      ensures r == Dead && !old(dead) ==> failures == 0 && lastFailure == old(lastFailure)
    {
      if live {
        failures := 0;
        return Connected;
      }
      if dead { return Dead; }
      if failures >= MAX_FAILURES {
        var elapsed := now - lastFailure;
        if elapsed >= window {
          cycle := cycle + 1;
          window := if window * 2.0 <= base * 4.0 then window * 2.0 else base * 4.0;
          failures := 0;
          if cycle >= maxDead {
            dead := true;
            return Dead;
          }
        } else {
          return Refused;
        }
      }
      label retrying:
      for i := 0 to |attempts|
        invariant true !in attempts[..i]
        invariant View() == old@retrying(View())
      {
        if attempts[i] {
          failures := 0;
          return Connected;
        }
        assert attempts[..i + 1] == attempts[..i] + [attempts[i]];
      }
      assert attempts[..|attempts|] == attempts;
      failures := failures + 1;
      lastFailure := failedAt;
      return Failed;
    }

    method ResetGatewayDead(now: real)
      modifies this
      ensures View() == Step(Settings(), old(View()), Reset(now)).0
      ensures !dead && cycle == 0 && window == base && failures == 0 && lastFailure == old(lastFailure)
    {
      dead := false;
      cycle := 0;
      window := base;
      failures := 0;
    }
  }
}
