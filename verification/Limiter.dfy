/** The token-bucket limiter of execution/rate_limiter.py and the shared instance of
    common/ibkr_rate_limiter.py.

    Both entry points run the same critical section under one lock, with the clock read inside it.
    An interleaving of any callers is therefore a sequence of poll times that never go back. */
module Limiter {
  import opened Foundations

  datatype Config = Config(rate: real, burst: nat)

  /** The bucket: tokens held and the time of the last refill. */
  datatype Bucket = Bucket(tokens: real, last: real)

  function Start(c: Config, now: real): Bucket { Bucket(c.burst as real, now) }

  /** Tokens earned over a stretch of time. */
  function Gain(c: Config, elapsed: real): real { elapsed * c.rate }

  lemma GainAdds(c: Config, d: real, e: real)
    ensures Gain(c, d + e) == Gain(c, d) + Gain(c, e)
  {}

  lemma GainZero(c: Config)
    ensures Gain(c, 0.0) == 0.0
  {}

  lemma GainGrows(c: Config, d: real, e: real)
    requires c.rate >= 0.0 && d <= e
    ensures Gain(c, d) <= Gain(c, e)
  {}

  /** The most grants a window of time may hold. */
  function Allowed(c: Config, from: real, to: real): real { c.burst as real + Gain(c, to - from) }

  function Refill(c: Config, b: Bucket, now: real): Bucket {
    Bucket(Min(c.burst as real, b.tokens + Gain(c, now - b.last)), now)
  }

  /** One critical section: refill, then take a token if there is one. */
  function Poll(c: Config, b: Bucket, now: real): (Bucket, bool) {
    var r := Refill(c, b, now);
    if r.tokens >= 1.0 then (r.(tokens := r.tokens - 1.0), true) else (r, false)
  }

  ghost predicate Ordered(ts: seq<real>) { forall i, j :: 0 <= i < j < |ts| ==> ts[i] <= ts[j] }

  /** Clock readings from `start` through the polls to t that never go back. */
  ghost predicate Clocked(start: real, polls: seq<real>, t: real) {
    if |polls| == 0 then start <= t
    else polls[|polls| - 1] <= t && Clocked(start, polls[..|polls| - 1], polls[|polls| - 1])
  }

  /** The bucket after a trace of polls, and the times at which a token was granted. */
  function Trace(c: Config, start: real, polls: seq<real>): (Bucket, seq<real>) {
    if |polls| == 0 then (Start(c, start), []) else
      var (b, grants) := Trace(c, start, polls[..|polls| - 1]);
      var now := polls[|polls| - 1];
      var (b', ok) := Poll(c, b, now);
      (b', if ok then grants + [now] else grants)
  }

  // ---- The closed form of the bucket ----

  /** What a schedule of grants leaves available at time t: no more than the burst, and for each
      past grant no more than its window's allowance less the grants made in it. */
  function Level(c: Config, grants: seq<real>, t: real): real {
    if |grants| == 0 then c.burst as real
    else Min(Level(c, grants[1..], t),
             Allowed(c, grants[0], t) - |grants| as real)
  }

  /** The closed form as a minimum over window starts: a lower bound of all of them, and one of them. */
  lemma {:induction false} LevelIsMinimum(c: Config, grants: seq<real>, t: real)
    ensures Level(c, grants, t) <= c.burst as real
    ensures forall i :: 0 <= i < |grants| ==>
              Level(c, grants, t) <= Allowed(c, grants[i], t) - (|grants| - i) as real
    ensures || Level(c, grants, t) == c.burst as real
            || exists i :: 0 <= i < |grants| && Level(c, grants, t) == Allowed(c, grants[i], t) - (|grants| - i) as real
  {
    hide Gain, Allowed;
    if |grants| > 0 {
      LevelIsMinimum(c, grants[1..], t);
      var rest := grants[1..];
      forall i | 0 <= i < |grants|
        ensures Level(c, grants, t) <= Allowed(c, grants[i], t) - (|grants| - i) as real
      {
        if i > 0 { assert rest[i - 1] == grants[i] && |rest| - (i - 1) == |grants| - i; }
      }
      if Level(c, grants, t) == Level(c, rest, t) && Level(c, rest, t) != c.burst as real {
        var i :| 0 <= i < |rest| && Level(c, rest, t) == Allowed(c, rest[i], t) - (|rest| - i) as real;
        assert grants[i + 1] == rest[i] && |grants| - (i + 1) == |rest| - i;
      }
    }
  }

  /** Time passing refills the level, up to the burst. */
  lemma {:induction false} LevelRefills(c: Config, grants: seq<real>, u: real, t: real)
    requires c.rate >= 0.0 && u <= t
    ensures Level(c, grants, t) == Min(c.burst as real, Level(c, grants, u) + Gain(c, t - u))
  {
    hide Gain;
    GainZero(c);
    GainGrows(c, 0.0, t - u);
    if |grants| > 0 {
      LevelRefills(c, grants[1..], u, t);
      GainAdds(c, t - u, u - grants[0]);
    }
  }

  /** A grant takes one from the level, and time refills what is left. */
  lemma {:induction false} LevelAfterGrant(c: Config, grants: seq<real>, u: real, t: real)
    requires c.rate >= 0.0 && u <= t
    ensures Level(c, grants + [u], t) == Min(c.burst as real, Level(c, grants, u) - 1.0 + Gain(c, t - u))
  {
    hide Gain;
    GainZero(c);
    GainGrows(c, 0.0, t - u);
    if |grants| == 0 {
      assert (grants + [u])[1..] == [];
    } else {
      assert (grants + [u])[1..] == grants[1..] + [u];
      LevelAfterGrant(c, grants[1..], u, t);
      GainAdds(c, t - u, u - grants[0]);
    }
  }

  /** The bucket holds exactly the closed form of the grants so far: refills compose, and refused
      polls leave no mark. */
  lemma {:induction false} BucketIsLevel(c: Config, start: real, polls: seq<real>, t: real)
    requires c.rate >= 0.0 && Clocked(start, polls, t)
    ensures var (b, grants) := Trace(c, start, polls);
            && b.last <= t
            && Refill(c, b, t).tokens == Level(c, grants, t)
    decreases |polls|
  {
    hide Gain;
    if |polls| == 0 {
      GainZero(c);
      GainGrows(c, 0.0, t - start);
    } else {
      var n := |polls| - 1;
      var prior, now := polls[..n], polls[n];
      BucketIsLevel(c, start, prior, now);
      var (b, grants) := Trace(c, start, prior);
      LevelRefills(c, grants, now, t);
      LevelAfterGrant(c, grants, now, t);
    }
  }

  lemma BucketIsBounded(c: Config, start: real, polls: seq<real>)
    ensures Trace(c, start, polls).0.tokens <= c.burst as real
  {}

  // ---- The rule the limiter enforces ----

  /** Every window that starts and ends at a grant holds no more grants than its allowance. */
  ghost predicate Legal(c: Config, grants: seq<real>) {
    forall i, j :: 0 <= i <= j < |grants| ==>
      (j - i + 1) as real <= Allowed(c, grants[i], grants[j])
  }

  /** A token is available at t exactly when one more grant breaks no window. */
  lemma LevelDecides(c: Config, grants: seq<real>, t: real)
    ensures Level(c, grants, t) >= 1.0 <==>
            && c.burst >= 1
            && forall i :: 0 <= i < |grants| ==> (|grants| - i + 1) as real <= Allowed(c, grants[i], t)
  {
    hide Gain, Allowed;
    LevelIsMinimum(c, grants, t);
  }

  lemma LegalExtends(c: Config, grants: seq<real>, t: real)
    requires Legal(c, grants)
    ensures Legal(c, grants + [t]) <==> Level(c, grants, t) >= 1.0
  {
    hide Gain;
    var more, n := grants + [t], |grants|;
    LevelDecides(c, grants, t);
    if Legal(c, more) {
      GainZero(c);
      assert more[n] == t && more[n] - more[n] == 0.0;
      assert (n - n + 1) as real <= Allowed(c, more[n], more[n]);
      forall i | 0 <= i < n ensures (n - i + 1) as real <= Allowed(c, grants[i], t) {
        assert more[i] == grants[i];
      }
    }
    if Level(c, grants, t) >= 1.0 {
      forall i, j | 0 <= i <= j < |more|
        ensures (j - i + 1) as real <= Allowed(c, more[i], more[j])
      {
        if j < n { assert more[i] == grants[i] && more[j] == grants[j]; }
        else if i == n { GainZero(c); assert t - t == 0.0; }
      }
    }
  }

  /** Maximality: whatever was polled before, a poll is refused exactly when granting it would
      break some window; and every trace of grants is legal. */
  lemma {:induction false} RefusesOnlyWhatBreaksAWindow(c: Config, start: real, polls: seq<real>, t: real)
    requires c.rate >= 0.0 && Clocked(start, polls, t)
    ensures var (b, grants) := Trace(c, start, polls);
            && Legal(c, grants)
            && (Poll(c, b, t).1 <==> Legal(c, grants + [t]))
    decreases |polls|
  {
    hide Gain, Level, Allowed;
    var (b, grants) := Trace(c, start, polls);
    if |polls| > 0 {
      RefusesOnlyWhatBreaksAWindow(c, start, polls[..|polls| - 1], polls[|polls| - 1]);
    }
    BucketIsLevel(c, start, polls, t);
    LegalExtends(c, grants, t);
  }

  /** Refused polls never change later answers: two histories with the same grants answer every
      later poll alike. */
  lemma RefusedPollsLeaveNoTrace(c: Config, start: real, polls: seq<real>, other: seq<real>, t: real)
    requires c.rate >= 0.0 && Clocked(start, polls, t) && Clocked(start, other, t)
    requires Trace(c, start, polls).1 == Trace(c, start, other).1
    ensures Poll(c, Trace(c, start, polls).0, t) == Poll(c, Trace(c, start, other).0, t)
  {
    hide Gain, Level;
    BucketIsLevel(c, start, polls, t);
    BucketIsLevel(c, start, other, t);
  }

  // ---- Windows of real time ----

  /** Grants inside [s, t]. */
  function Within(grants: seq<real>, s: real, t: real): nat {
    if |grants| == 0 then 0
    else Within(grants[..|grants| - 1], s, t) + if s <= grants[|grants| - 1] <= t then 1 else 0
  }

  /** In an ordered list the grants inside a window stand together. */
  lemma {:induction false} WithinIsARange(grants: seq<real>, s: real, t: real) returns (i: nat, j: nat)
    requires Ordered(grants)
    ensures i <= j <= |grants| && Within(grants, s, t) == j - i
    ensures forall k :: i <= k < j ==> s <= grants[k] <= t
    ensures forall k :: j <= k < |grants| ==> grants[k] > t
    ensures forall k :: 0 <= k < i ==> grants[k] < s
  {
    if |grants| == 0 { return 0, 0; }
    var n := |grants| - 1;
    i, j := WithinIsARange(grants[..n], s, t);
    if grants[n] < s {
      i, j := n + 1, n + 1;
      if |grants[..n]| > 0 { assert grants[..n][n - 1] <= grants[n]; }
      assert forall k :: 0 <= k < n ==> grants[k] <= grants[n];
      assert Within(grants[..n], s, t) == 0 by { NoneWithin(grants[..n], s, t); }
    } else if grants[n] <= t {
      assert forall k :: 0 <= k < n ==> grants[k] <= grants[n];
      assert j == n;
      j := n + 1;
    }
  }

  lemma {:induction false} NoneWithin(grants: seq<real>, s: real, t: real)
    requires forall k :: 0 <= k < |grants| ==> grants[k] < s
    ensures Within(grants, s, t) == 0
  {
    if |grants| > 0 { NoneWithin(grants[..|grants| - 1], s, t); }
  }

  lemma {:induction false} GrantsOrdered(c: Config, start: real, polls: seq<real>, t: real)
    requires Clocked(start, polls, t)
    ensures var grants := Trace(c, start, polls).1;
            Ordered(grants) && forall k :: 0 <= k < |grants| ==> grants[k] <= t
  {
    hide Poll;
    if |polls| > 0 {
      GrantsOrdered(c, start, polls[..|polls| - 1], polls[|polls| - 1]);
    }
  }

  /** The window bound: in every interleaving, no interval of time sees more grants than the burst
      plus what the rate allows for its length. */
  lemma WindowBound(c: Config, start: real, polls: seq<real>, end: real, s: real, t: real)
    requires c.rate >= 0.0 && Clocked(start, polls, end) && s <= t
    ensures Within(Trace(c, start, polls).1, s, t) as real <= Allowed(c, s, t)
  {
    hide Gain, Level, Trace;
    var grants := Trace(c, start, polls).1;
    GrantsOrdered(c, start, polls, end);
    RefusesOnlyWhatBreaksAWindow(c, start, polls, end);
    var i, j := WithinIsARange(grants, s, t);
    GainZero(c);
    GainGrows(c, 0.0, t - s);
    if i < j {
      assert (j - 1 - i + 1) as real <= Allowed(c, grants[i], grants[j - 1]);
      GainGrows(c, grants[j - 1] - grants[i], t - s);
    }
  }

  // ---- Greed is best ----

  /** The poll times a selection keeps. */
  function Chosen(polls: seq<real>, pick: seq<bool>): seq<real>
    requires |polls| == |pick|
  {
    if |polls| == 0 then [] else
      var n := |polls| - 1;
      Chosen(polls[..n], pick[..n]) + if pick[n] then [polls[n]] else []
  }

  lemma LegalPrefix(c: Config, grants: seq<real>, t: real)
    requires Legal(c, grants + [t])
    ensures Legal(c, grants)
  {
    hide Allowed;
    forall i, j | 0 <= i <= j < |grants|
      ensures (j - i + 1) as real <= Allowed(c, grants[i], grants[j])
    {
      assert (grants + [t])[i] == grants[i] && (grants + [t])[j] == grants[j];
    }
  }

  /** No choice of polls that respects every window grants more than the limiter does, at any point
      of any trace; any lead in tokens it has is paid for in grants. */
  lemma {:induction false} GrantsTheMost(c: Config, start: real, polls: seq<real>, pick: seq<bool>, t: real)
    requires c.rate >= 0.0 && Clocked(start, polls, t) && |pick| == |polls|
    requires Legal(c, Chosen(polls, pick))
    ensures var grants := Trace(c, start, polls).1;
            && |Chosen(polls, pick)| <= |grants|
            && Level(c, Chosen(polls, pick), t) <= Level(c, grants, t) + (|grants| - |Chosen(polls, pick)|) as real
    decreases |polls|
  {
    hide Gain, Level, Legal;
    if |polls| > 0 {
      var n := |polls| - 1;
      var now, prior, kept := polls[n], polls[..n], pick[..n];
      var mine, best := Chosen(prior, kept), Trace(c, start, prior).1;
      if pick[n] { LegalPrefix(c, mine, now); } else { assert Chosen(polls, pick) == mine; }
      GrantsTheMost(c, start, prior, kept, now);
      BucketIsLevel(c, start, prior, now);
      if pick[n] { LegalExtends(c, mine, now); }
      LevelRefills(c, mine, now, t);
      LevelRefills(c, best, now, t);
      LevelAfterGrant(c, mine, now, t);
      LevelAfterGrant(c, best, now, t);
    }
  }

  // ---- Caps on one second ----

  /** Grants of a trace in the second that starts at s. */
  function InSecond(c: Config, start: real, polls: seq<real>, s: real): nat {
    Within(Trace(c, start, polls).1, s, s + 1.0)
  }

  /** No trace puts more than `cap` grants into any second. */
  ghost predicate Capped(c: Config, cap: int) {
    forall start, polls, end, s {:trigger Clocked(start, polls, end), InSecond(c, start, polls, s)} ::
      Clocked(start, polls, end) ==> InSecond(c, start, polls, s) <= cap
  }

  lemma WithinCap(c: Config, start: real, polls: seq<real>, end: real, s: real)
    requires c.rate >= 0.0 && Clocked(start, polls, end)
    ensures InSecond(c, start, polls, s) <= c.burst + c.rate.Floor
    ensures c.burst == 0 ==> InSecond(c, start, polls, s) == 0
  {
    WindowBound(c, start, polls, end, s, s + 1.0);
    assert Gain(c, s + 1.0 - s) == c.rate;
    if c.burst == 0 { EmptyBucket(c, start, polls); }
  }

  lemma {:induction false} EmptyBucket(c: Config, start: real, polls: seq<real>)
    requires c.burst == 0
    ensures var (b, grants) := Trace(c, start, polls); grants == [] && b.tokens <= 0.0
  {
    if |polls| > 0 { EmptyBucket(c, start, polls[..|polls| - 1]); }
  }

  /** The n-th poll of a flood: the burst at once, then one poll per earned token. */
  function FloodTime(c: Config, start: real, n: nat): real
    requires c.rate > 0.0 || n < c.burst
  {
    if n < c.burst then start else start + (n - c.burst + 1) as real / c.rate
  }

  function Flood(c: Config, start: real, n: nat): (polls: seq<real>)
    requires c.rate > 0.0 || n <= c.burst
    ensures |polls| == n && forall i :: 0 <= i < n ==> polls[i] == FloodTime(c, start, i)
  {
    if n == 0 then [] else Flood(c, start, n - 1) + [FloodTime(c, start, n - 1)]
  }

  lemma FloodStep(c: Config, start: real, n: nat)
    requires c.rate >= 0.0 && (c.rate > 0.0 || n < c.burst) && c.burst >= 1
    ensures var before := if n == 0 then start else FloodTime(c, start, n - 1);
            && before <= FloodTime(c, start, n)
            && Gain(c, FloodTime(c, start, n) - before) == if n < c.burst then 0.0 else 1.0
  {
    GainZero(c);
    if n >= c.burst {
      var k, r := (n - c.burst) as real, c.rate;
      Spacing(k, r);
      assert k + 1.0 == (n - c.burst + 1) as real;
      if n == c.burst { assert k / r == 0.0; }
    }
  }

  lemma Spacing(k: real, r: real)
    requires r > 0.0
    ensures (k + 1.0) / r - k / r == 1.0 / r > 0.0 && (1.0 / r) * r == 1.0
    ensures ((k + 1.0) / r - k / r) * r == 1.0
  {
    assert (k + 1.0) / r == k / r + 1.0 / r;
  }

  lemma FloodLast(c: Config, start: real, n: nat)
    requires n > 0 && (c.rate > 0.0 || n <= c.burst)
    ensures Flood(c, start, n) == Flood(c, start, n - 1) + [FloodTime(c, start, n - 1)]
  {}

  lemma TraceMore(c: Config, start: real, polls: seq<real>, now: real)
    ensures var (b, grants) := Trace(c, start, polls);
            var (b', ok) := Poll(c, b, now);
            Trace(c, start, polls + [now]) == (b', if ok then grants + [now] else grants)
  {
    assert (polls + [now])[..|polls|] == polls;
  }

  lemma FloodIsEmpty(c: Config, start: real)
    ensures Flood(c, start, 0) == [] && Trace(c, start, []) == (Start(c, start), []) && Clocked(start, [], start)
  {}

  /** The n-th poll of a flood finds a token and leaves one less than before, or none after the burst. */
  lemma FloodPoll(c: Config, start: real, n: nat, b: Bucket)
    requires c.rate >= 0.0 && (c.rate > 0.0 || n < c.burst) && c.burst >= 1
    requires b.tokens == (if n <= c.burst then (c.burst - n) as real else 0.0)
    requires b.last == if n == 0 then start else FloodTime(c, start, n - 1)
    ensures Poll(c, b, FloodTime(c, start, n))
            == (Bucket(if n + 1 <= c.burst then (c.burst - n - 1) as real else 0.0, FloodTime(c, start, n)), true)
  {
    hide FloodTime, Gain;
    FloodStep(c, start, n);
  }

  lemma {:induction false} FloodIsGranted(c: Config, start: real, n: nat)
    requires c.rate >= 0.0 && (c.rate > 0.0 || n <= c.burst) && c.burst >= 1
    ensures var (b, grants) := Trace(c, start, Flood(c, start, n));
            && grants == Flood(c, start, n)
            && b.tokens == (if n <= c.burst then (c.burst - n) as real else 0.0)
            && b.last == if n == 0 then start else FloodTime(c, start, n - 1)
  {
    hide Trace, Flood, FloodTime, Poll;
    if n == 0 {
      FloodIsEmpty(c, start);
    } else {
      FloodIsGranted(c, start, n - 1);
      FloodLast(c, start, n);
      var (b, grants) := Trace(c, start, Flood(c, start, n - 1));
      FloodPoll(c, start, n - 1, b);
      TraceMore(c, start, Flood(c, start, n - 1), FloodTime(c, start, n - 1));
    }
  }

  lemma {:induction false} AllWithin(grants: seq<real>, s: real, t: real)
    requires forall k :: 0 <= k < |grants| ==> s <= grants[k] <= t
    ensures Within(grants, s, t) == |grants|
  {
    if |grants| > 0 { AllWithin(grants[..|grants| - 1], s, t); }
  }

  lemma {:induction false} FloodOrdered(c: Config, start: real, i: nat, j: nat)
    requires c.rate >= 0.0 && (c.rate > 0.0 || j < c.burst) && c.burst >= 1 && i <= j
    ensures start <= FloodTime(c, start, i) <= FloodTime(c, start, j)
    decreases j - i + i
  {
    hide FloodTime;
    if i < j {
      FloodOrdered(c, start, i, j - 1);
      FloodStep(c, start, j);
    } else if i > 0 {
      FloodOrdered(c, start, i - 1, i - 1);
      FloodStep(c, start, i);
    } else {
      FloodStep(c, start, 0);
    }
  }

  lemma {:induction false} FloodClocked(c: Config, start: real, n: nat)
    requires c.rate >= 0.0 && (c.rate > 0.0 || n <= c.burst) && c.burst >= 1
    ensures Clocked(start, Flood(c, start, n), if n == 0 then start else FloodTime(c, start, n - 1))
  {
    hide FloodTime, Flood, Clocked, Gain;
    if n == 0 {
      FloodIsEmpty(c, start);
    } else {
      FloodClocked(c, start, n - 1);
      FloodStep(c, start, n - 1);
      FloodLast(c, start, n);
      ClockedLater(start, Flood(c, start, n - 1), if n == 1 then start else FloodTime(c, start, n - 2),
                   FloodTime(c, start, n - 1));
    }
  }

  /** Some trace reaches the burst plus the whole tokens of one second. */
  lemma FloodFillsASecond(c: Config, start: real)
    requires c.rate >= 0.0 && c.burst >= 1
    ensures exists polls, end :: Clocked(start, polls, end)
              && InSecond(c, start, polls, start) == c.burst + c.rate.Floor
  {
    var n := c.burst + c.rate.Floor;
    var polls := Flood(c, start, n);
    FloodIsGranted(c, start, n);
    FloodClocked(c, start, n);
    forall k | 0 <= k < n ensures start <= polls[k] <= start + 1.0 {
      FloodOrdered(c, start, k, n - 1);
      if n - 1 >= c.burst { WithinOne(c.rate.Floor as real, c.rate); }
    }
    AllWithin(polls, start, start + 1.0);
    assert InSecond(c, start, polls, start) == n;
  }

  lemma WithinOne(a: real, r: real)
    requires 0.0 <= a <= r && r > 0.0
    ensures a / r <= 1.0
  {}

  /** The one-second cap holds exactly when the burst and the whole tokens of a second fit in it. */
  lemma CapExactly(c: Config, cap: nat)
    requires c.rate >= 0.0
    ensures Capped(c, cap) <==> c.burst == 0 || c.burst + c.rate.Floor <= cap
  {
    if c.burst == 0 || c.burst + c.rate.Floor <= cap {
      forall start, polls, end, s | Clocked(start, polls, end)
        ensures InSecond(c, start, polls, s) <= cap
      {
        WithinCap(c, start, polls, end, s);
      }
    } else {
      FloodFillsASecond(c, 0.0);
    }
  }

  const HARD_CAP: nat := 50
  const GLOBAL := Config(40.0, 8)
  const DEFAULT := Config(45.0, 10)

  /** The shared limiter stays at 48 messages a second or fewer, under the broker's 50; the class
      default, documented as a safe margin, does not stay under it. */
  lemma GlobalIsSafeDefaultIsNot()
    ensures Capped(GLOBAL, 48) && Capped(GLOBAL, HARD_CAP) && !Capped(GLOBAL, 47)
    ensures !Capped(DEFAULT, HARD_CAP) && Capped(DEFAULT, 55)
  {
    CapExactly(GLOBAL, 47);
    CapExactly(GLOBAL, 48);
    CapExactly(GLOBAL, HARD_CAP);
    CapExactly(DEFAULT, HARD_CAP);
    CapExactly(DEFAULT, 55);
  }

  // ---- The limiter object ----

  /** One trip round the waiting loop: the rivals that get the lock first, the time read inside the
      lock, and the time read after it. */
  datatype Round = Round(rivals: seq<real>, now: real, after: real)

  datatype Acquired = Granted | TimedOut | Waiting

  /** The critical sections of a waiting loop, in lock order. */
  function LockTimes(rounds: seq<Round>): seq<real> {
    if |rounds| == 0 then [] else
      LockTimes(rounds[..|rounds| - 1]) + rounds[|rounds| - 1].rivals + [rounds[|rounds| - 1].now]
  }

  /** Readings that go forward from `last` through ts to now. */
  ghost predicate Forward(last: real, ts: seq<real>, now: real)
    decreases |ts|
  {
    if |ts| == 0 then last <= now else last <= ts[0] && Forward(ts[0], ts[1..], now)
  }

  ghost predicate Timely(last: real, rounds: seq<Round>)
    decreases |rounds|
  {
    |rounds| == 0 || (Forward(last, rounds[0].rivals, rounds[0].now) && Timely(rounds[0].now, rounds[1..]))
  }

  lemma LockTimesStart(rounds: seq<Round>)
    ensures rounds[..0] == [] && rounds[0..] == rounds && LockTimes([]) == []
  {}

  lemma LockTimesMore(rounds: seq<Round>, k: nat)
    requires k < |rounds|
    ensures LockTimes(rounds[..k + 1]) == LockTimes(rounds[..k]) + rounds[k].rivals + [rounds[k].now]
  {
    assert rounds[..k + 1][..k] == rounds[..k];
  }

  lemma TimelyMore(last: real, rounds: seq<Round>, k: nat)
    requires k < |rounds| && Timely(last, rounds[k..])
    ensures Forward(last, rounds[k].rivals, rounds[k].now) && Timely(rounds[k].now, rounds[k + 1..])
  {
    assert rounds[k..][0] == rounds[k] && rounds[k..][1..] == rounds[k + 1..];
  }

  class TokenBucketRateLimiter {
    const rate: real
    const burst: nat
    var tokens: real
    var lastRefill: real
    ghost var born: real
    ghost var polls: seq<real>

    ghost function Settings(): Config { Config(rate, burst) }

    ghost function Grants(): seq<real>
      reads this
    {
      Trace(Settings(), born, polls).1
    }

    ghost predicate Valid()
      reads this
    {
      && rate >= 0.0
      && Clocked(born, polls, lastRefill)
      && Trace(Settings(), born, polls).0 == Bucket(tokens, lastRefill)
    }

    constructor (rate: real, burst: nat, now: real)
      requires rate >= 0.0
      ensures Valid() && polls == [] && this.rate == rate && this.burst == burst && Grants() == []
    {
      this.rate, this.burst := rate, burst;
      tokens, lastRefill := burst as real, now;
      born, polls := now, [];
    }

    method RefillTo(now: real)
      modifies this`tokens, this`lastRefill
      ensures Bucket(tokens, lastRefill) == Refill(Settings(), old(Bucket(tokens, lastRefill)), now)
    {
      var elapsed := now - lastRefill;
      lastRefill := now;
      tokens := Min(burst as real, tokens + elapsed * rate);
    }

    /** Granted exactly when one more grant breaks no window. */
    method TryAcquire(now: real) returns (ok: bool)
      requires Valid() && now >= lastRefill
      modifies this
      ensures Valid() && lastRefill == now
      ensures born == old(born) && polls == old(polls) + [now]
      ensures ok <==> Legal(Settings(), old(Grants()) + [now])
      ensures Grants() == if ok then old(Grants()) + [now] else old(Grants())
      ensures !ok ==> tokens < 1.0
    {
      hide Legal, Gain, Min;
      ClockedLater(born, polls, lastRefill, now);
      RefusesOnlyWhatBreaksAWindow(Settings(), born, polls, now);
      assert (polls + [now])[..|polls|] == polls;
      RefillTo(now);
      ok := tokens >= 1.0;
      if ok { tokens := tokens - 1.0; }
      polls := polls + [now];
    }

    /** Critical sections of other callers. */
    method LetRivalsIn(rivals: seq<real>, ghost now: real)
      requires Valid() && Forward(lastRefill, rivals, now)
      modifies this
      ensures Valid() && born == old(born) && polls == old(polls) + rivals && lastRefill <= now
    {
      hide Trace, Legal, Clocked;
      for i := 0 to |rivals|
        invariant Valid() && born == old(born) && polls == old(polls) + rivals[..i]
        invariant Forward(lastRefill, rivals[i..], now)
      {
        assert rivals[i..][1..] == rivals[i + 1..];
        assert rivals[..i + 1] == rivals[..i] + [rivals[i]];
        var _ := TryAcquire(rivals[i]);
      }
      assert rivals[..|rivals|] == rivals;
    }

    /** Blocking acquisition: a token is consumed exactly when the call succeeds, and when it gives
        up no token would have come by the deadline, less the time the lock took to be left. */
    method Acquire(timeout: real, start: real, rounds: seq<Round>) returns (r: Acquired, used: nat)
      requires Valid() && rate > 0.0 && Timely(lastRefill, rounds)
      modifies this
      ensures Valid() && born == old(born)
      ensures used <= |rounds| && polls == old(polls) + LockTimes(rounds[..used])
      ensures r == Waiting ==> used == |rounds|
      ensures r != Waiting ==> used > 0 && |polls| > 0 && polls[|polls| - 1] == rounds[used - 1].now
      ensures r == Granted ==> Grants() == Trace(Settings(), born, polls[..|polls| - 1]).1 + [rounds[used - 1].now]
      ensures r == TimedOut ==> Grants() == Trace(Settings(), born, polls[..|polls| - 1]).1
      ensures r == TimedOut ==>
                var round := rounds[used - 1];
                forall u | round.now <= u && u + (round.after - round.now) <= start + timeout ::
                  Level(Settings(), Grants(), u) < 1.0
      ensures r == TimedOut ==> !InTime(Settings(), Grants(), rounds[used - 1], start + timeout)
      ensures forall k {:trigger rounds[..k]} :: 0 < k < used || (k == used > 0 && r == Waiting) ==>
                InTime(Settings(), Trace(Settings(), born, old(polls) + LockTimes(rounds[..k])).1, rounds[k - 1],
                       start + timeout)
    {
      hide Trace, Level, InTime, LockTimes, Timely, Valid;
      var deadline := start + timeout;
      used := 0;
      LockTimesStart(rounds);
      while used < |rounds|
        invariant used <= |rounds| && Valid() && born == old(born)
        invariant polls == old(polls) + LockTimes(rounds[..used])
        invariant Timely(lastRefill, rounds[used..])
        invariant forall k {:trigger rounds[..k]} :: 0 < k <= used ==>
                    InTime(Settings(), Trace(Settings(), born, old(polls) + LockTimes(rounds[..k])).1, rounds[k - 1],
                           deadline)
      {
        LockTimesMore(rounds, used);
        TimelyMore(lastRefill, rounds, used);
        var got, late := TryRound(rounds[used], deadline);
        used := used + 1;
        if got { return Granted, used; }
        if late { return TimedOut, used; }
      }
      assert rounds[..used] == rounds;
      return Waiting, used;
    }

    /** One round of the loop: the critical section, and whether the wait for the next token is too long. */
    method TryRound(round: Round, deadline: real) returns (got: bool, late: bool)
      requires Valid() && rate > 0.0 && Forward(lastRefill, round.rivals, round.now)
      modifies this
      ensures Valid() && born == old(born) && lastRefill == round.now
      ensures polls == old(polls) + round.rivals + [round.now]
      ensures Grants() == Trace(Settings(), born, polls[..|polls| - 1]).1 + if got then [round.now] else []
      ensures late <==> !got && !InTime(Settings(), Grants(), round, deadline)
      ensures late ==> forall u | round.now <= u && u + (round.after - round.now) <= deadline ::
                Level(Settings(), Grants(), u) < 1.0
    {
      hide Trace, Legal, Level, Clocked, Forward, InTime;
      LetRivalsIn(round.rivals, round.now);
      ghost var ahead := polls;
      got := TryAcquire(round.now);
      assert polls[..|polls| - 1] == ahead;
      if got { return true, false; }
      var wait := (1.0 - tokens) / rate;
      WaitDecides(round, wait, deadline);
      late := round.after + wait > deadline;
      if late { NothingByDeadline(round.now, round.after, wait, deadline); }
    }

    lemma WaitDecides(round: Round, wait: real, deadline: real)
      requires Valid() && lastRefill == round.now && rate > 0.0 && wait == (1.0 - tokens) / rate
      ensures InTime(Settings(), Grants(), round, deadline) <==> round.after + wait <= deadline
    {
      hide Level, Trace, Clocked, Gain;
      BucketIsLevel(Settings(), born, polls, round.now);
      BucketIsBounded(Settings(), born, polls);
      GainZero(Settings());
      assert round.now - lastRefill == 0.0;
      FitsExactly(Settings(), deadline - round.after, wait, tokens);
    }

    lemma NothingByDeadline(now: real, after: real, wait: real, deadline: real)
      requires Valid() && lastRefill == now && rate > 0.0 && tokens < 1.0
      requires wait == (1.0 - tokens) / rate && after + wait > deadline
      ensures forall u :: now <= u && u + (after - now) <= deadline ==> Level(Settings(), Grants(), u) < 1.0
    {
      hide Level;
      forall u | now <= u && u + (after - now) <= deadline ensures Level(Settings(), Grants(), u) < 1.0 {
        ClockedLater(born, polls, lastRefill, u);
        BucketIsLevel(Settings(), born, polls, u);
        EarnsTooLittle(Settings(), u - now, wait, tokens);
      }
    }
  }

  /** The wait for a token, from what the level is when a round is refused, ends by the deadline. */
  ghost predicate InTime(c: Config, grants: seq<real>, round: Round, deadline: real) {
    Level(c, grants, round.now) + Gain(c, deadline - round.after) >= 1.0
  }

  /** A refused round is followed by another exactly when some moment by the deadline has a token to give, less
      the time the lock took to be left. */
  lemma InTimeMeans(c: Config, grants: seq<real>, round: Round, deadline: real)
    requires c.rate > 0.0 && c.burst >= 1 && Level(c, grants, round.now) < 1.0
    ensures InTime(c, grants, round, deadline)
            <==> exists u :: round.now <= u <= round.now + (deadline - round.after) && Level(c, grants, u) >= 1.0
  {
    hide Level;
    var d := deadline - round.after;
    if InTime(c, grants, round, deadline) {
      ProductSign(d, c.rate);
      LevelRefills(c, grants, round.now, round.now + d);
      assert Level(c, grants, round.now + d) >= 1.0;
    }
    forall u | round.now <= u <= round.now + d && Level(c, grants, u) >= 1.0
      ensures InTime(c, grants, round, deadline)
    {
      LevelRefills(c, grants, round.now, u);
      GainGrows(c, u - round.now, d);
    }
  }

  lemma FitsExactly(c: Config, d: real, wait: real, tokens: real)
    requires c.rate > 0.0 && wait == (1.0 - tokens) / c.rate
    ensures tokens + Gain(c, d) >= 1.0 <==> wait <= d
  {
    DivideBack(1.0 - tokens, c.rate);
    ProductOrder(c.rate, wait, d);
  }

  lemma EarnsTooLittle(c: Config, d: real, wait: real, tokens: real)
    requires c.rate > 0.0 && wait == (1.0 - tokens) / c.rate && d < wait
    ensures tokens + Gain(c, d) < 1.0
  {
    assert wait * c.rate == 1.0 - tokens;
  }

  /** A later reading keeps a trace clocked. */
  lemma ClockedLater(born: real, polls: seq<real>, last: real, now: real)
    requires Clocked(born, polls, last) && last <= now
    ensures Clocked(born, polls, now)
    ensures Clocked(born, polls + [now], now)
  {
    assert (polls + [now])[..|polls|] == polls;
  }
}
