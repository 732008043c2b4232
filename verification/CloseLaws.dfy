/** Why a position leaves or enters the book of Simulator: exact conditions on prices, days, keys and
    signals, for the bars and for the block after them. */
module CloseLaws {
  import opened Foundations
  import opened PairBook
  import opened Simulator
  import opened SimulatorLaws

  // ---- Stops ----

  /** The position is down by at least its stop, as a share of its notional; with no notional the loss
      counts as nothing. */
  predicate StoppedOut(env: Env, pos: Position, bar: int) {
    if pos.notional > 0.0 then Unrealized(pos, env.market, bar) <= -pos.stopPct * pos.notional else pos.stopPct <= 0.0
  }

  lemma LossFires(env: Env, pos: Position, bar: int)
    ensures Fires(env, LossStop, pos, bar) <==> StoppedOut(env, pos, bar)
  {
    hide Unrealized;
    var u, n := Unrealized(pos, env.market, bar), pos.notional;
    if n > 0.0 { LossShare(u, n, pos.stopPct); }
  }

  lemma LossShare(u: real, n: real, stop: real)
    requires n > 0.0
    ensures -u / n >= stop <==> u <= -stop * n
  {
    var share := -u / n;
    assert share * n == -u;
    ProductOrder(n, stop, share);
    assert -stop * n == -(stop * n);
  }

  lemma {:induction false} SparedMember(env: Env, open: seq<Entry>, bar: int, t: Trigger, e: Entry)
    ensures e in Spared(env, open, bar, t) <==> e in open && !Fires(env, t, e.pos, bar)
  {
    hide Fires;
    if |open| > 0 {
      assert open == [open[0]] + open[1..];
      SparedMember(env, open[1..], bar, t, e);
    }
  }

  /** A loss stop closes exactly the positions that have lost at least their stop, and none when no stop is
      configured. */
  lemma LossStopsExactly(env: Env, b: Book, bar: int, e: Entry)
    requires Distinct(b.open)
    ensures env.maxLoss > 0.0 ==>
              (e in LossStops(env, b, bar).open <==>
               && e in b.open
               && (if e.pos.notional > 0.0
                   then Unrealized(e.pos, env.market, bar) > -e.pos.stopPct * e.pos.notional
                   else e.pos.stopPct > 0.0))
    ensures env.maxLoss <= 0.0 ==> LossStops(env, b, bar) == b
  {
    hide CloseWhere, Spared, Fires;
    if env.maxLoss > 0.0 {
      CloseBookSparesTheRest(env, b, bar, LossStop, true);
      SparedMember(env, b.open, bar, LossStop, e);
      LossFires(env, e.pos, bar);
    }
  }

  /** The time stop closes exactly the positions whose time is up after the bars they were held. */
  lemma TimeStopsExactly(env: Env, b: Book, bar: int, e: Entry)
    requires Distinct(b.open)
    ensures e in CloseBook(env, b, bar, TimeStop, true).open
            <==> e in b.open && !env.timeUp(bar - e.pos.entryBar, e.pos.halfLife)
  {
    hide CloseWhere, Spared;
    CloseBookSparesTheRest(env, b, bar, TimeStop, true);
    SparedMember(env, b.open, bar, TimeStop, e);
  }

  // ---- Tier 2 ----

  lemma {:induction false} CloseKeysExactly(env: Env, b: Book, ks: seq<string>, bar: int, e: Entry)
    requires Distinct(b.open)
    ensures var r := CloseWhere(env, b, ks, bar, Always, true);
            Distinct(r.open) && (e in r.open <==> e in b.open && e.key !in ks)
    decreases |ks|
  {
    if |ks| > 0 {
      hide CloseOne;
      var i := IndexOf(b.open, ks[0]);
      assert ks == [ks[0]] + ks[1..];
      if i < |b.open| {
        ClosedAt(env, b, i, bar, true);
        TakenEntries(b.open, i, e);
        CloseKeysExactly(env, CloseOne(env, b, i, bar, true), ks[1..], bar, e);
      } else {
        assert e in b.open ==> e.key in Keys(b.open);
        CloseKeysExactly(env, b, ks[1..], bar, e);
      }
    }
  }

  lemma TakenEntries(open: seq<Entry>, i: nat, e: Entry)
    requires Distinct(open) && i < |open|
    ensures e in Take(open, i) <==> e in open && e.key != open[i].key
  {
    assert open == open[..i] + [open[i]] + open[i + 1..];
    if e in Take(open, i) {
      var j :| 0 <= j < |Take(open, i)| && Take(open, i)[j] == e;
      assert e == open[if j < i then j else j + 1];
    }
  }

  /** Number of positions a tier-2 response of this fraction closes: the whole part of the share, at least
      one, at most all. */
  predicate TierSize(n: nat, size: nat, fraction: real) {
    TierPart(n, size, size as real * fraction)
  }

  predicate TierPart(n: nat, size: nat, share: real) {
    if share < 2.0 then n == (if size == 0 then 0 else 1)
    else if share >= size as real then n == size
    else n as real <= share < n as real + 1.0
  }

  /** A tier-2 response closes its share of the book, and no position it keeps is worth less than one it
      closes. Without a fraction it does nothing. */
  lemma TierTwoExactly(env: Env, b: Book, fraction: real, bar: int)
    requires Distinct(b.open)
    ensures fraction <= 0.0 ==> TierTwo(env, b, fraction, bar) == b
    ensures fraction > 0.0 ==>
              var r := TierTwo(env, b, fraction, bar);
              && |r.open| <= |b.open| && TierSize(|b.open| - |r.open|, |b.open|, fraction)
              && (forall e, f :: e in b.open && e !in r.open && f in r.open ==>
                    f in b.open && Unrealized(e.pos, env.market, bar) <= Unrealized(f.pos, env.market, bar))
  {
    if fraction > 0.0 {
      hide CloseWhere, Weakest, Unrealized, TierCount;
      var n := TierCount(|b.open|, fraction);
      var ks, r := Weakest(b.open, env.market, bar, n), TierTwo(env, b, fraction, bar);
      WeakestAreWeakest(b.open, env.market, bar, n);
      TierTwoClosesTheWeakest(env, b, fraction, bar);
      forall e ensures e in r.open <==> e in b.open && e.key !in ks { CloseKeysExactly(env, b, ks, bar, e); }
      CloseKeysExactly(env, b, ks, bar, Entry("", HELD));
      DistinctCount(b.open);
      DistinctCount(r.open);
      KeyCount(ks, Keys(b.open), Keys(r.open));
      TierCountIs(|b.open|, fraction);
    }
  }

  lemma KeyCount(ks: seq<string>, before: set<string>, after: set<string>)
    requires (forall i, j :: 0 <= i < j < |ks| ==> ks[i] != ks[j]) && (forall k :: k in ks ==> k in before)
    requires after == before - (set k | k in ks)
    ensures |after| + |ks| == |before|
  {
    var gone := set k | k in ks;
    SetOfDistinct(ks);
    assert before == after + gone && after !! gone;
  }

  lemma {:induction false} SetOfDistinct(ks: seq<string>)
    requires forall i, j :: 0 <= i < j < |ks| ==> ks[i] != ks[j]
    ensures |set k | k in ks| == |ks|
  {
    if |ks| == 0 {
      assert (set k | k in ks) == {};
    } else {
      SetOfDistinct(ks[1..]);
      assert ks == [ks[0]] + ks[1..];
      assert (set k | k in ks) == {ks[0]} + (set k | k in ks[1..]);
    }
  }

  lemma TierCountIs(size: nat, fraction: real)
    requires fraction > 0.0
    ensures var n := TierCount(size, fraction); TierSize(if n < size then n else size, size, fraction)
  {
    NotNegative(size as real, fraction);
    WholePart(size, size as real * fraction);
  }

  lemma WholePart(size: nat, share: real)
    requires share >= 0.0
    ensures var n: nat := if share.Floor > 1 then share.Floor else 1;
            TierPart(if n < size then n else size, size, share)
  {
    assert share.Floor as real <= share < share.Floor as real + 1.0;
  }

  // ---- Signals ----

  /** The signal names two listed symbols. */
  predicate Readable(env: Env, s: Signal) {
    |s.parts| == 2 && env.market.listed(s.parts[0]) && env.market.listed(s.parts[1])
  }

  ghost predicate Exits(env: Env, ss: seq<Signal>, key: string) {
    exists i :: 0 <= i < |ss| && ss[i].key == key && Readable(env, ss[i]) && ss[i].intent == Exit
  }

  lemma ExitsFirst(env: Env, ss: seq<Signal>, key: string)
    requires |ss| > 0
    ensures Exits(env, ss, key)
            <==> (ss[0].key == key && Readable(env, ss[0]) && ss[0].intent == Exit) || Exits(env, ss[1..], key)
  {
    if Exits(env, ss[1..], key) {
      var i :| 0 <= i < |ss[1..]| && ss[1..][i].key == key && Readable(env, ss[1..][i]) && ss[1..][i].intent == Exit;
      assert ss[i + 1] == ss[1..][i];
    }
    if Exits(env, ss, key) {
      var i :| 0 <= i < |ss| && ss[i].key == key && Readable(env, ss[i]) && ss[i].intent == Exit;
      if i > 0 { assert ss[1..][i - 1] == ss[i]; }
    }
  }

  /** The position a signal and its ticket open: filled at the next bar's prices, sized as the ticket says. */
  predicate EnteredFrom(env: Env, s: Signal, e: Entry, bar: int) {
    && e.key == s.key && Readable(env, s) && s.intent.Enter? && s.ticket.Some? && bar + 1 < env.market.bars
    && var p, t := e.pos, s.ticket.value;
       && p.side == s.intent.side && p.sym1 == s.parts[0] && p.sym2 == s.parts[1] && p.entryBar == bar + 1
       && p.entry1 == env.market.price(s.parts[0], bar + 1) && p.entry2 == env.market.price(s.parts[1], bar + 1)
       && p.notional == t.notional && p.notional1 == t.notional1 && p.notional2 == t.notional2
       && p.entryCost == t.cost && p.halfLife == t.halfLife && p.stopPct == t.stopPct && p.borrowFee == t.borrowFee
       && p.peak == 0.0
  }

  /** One signal: an exit takes out the entry under its key, an entry adds one where there is none, and every
      other entry stays. */
  lemma OneSignal(env: Env, b: Book, s: Signal, bar: int, e: Entry)
    requires Distinct(b.open)
    ensures var r := OnSignal(env, b, s, bar);
            && Distinct(r.open) && r.active == b.active
            && (e in b.open ==>
                  (e in r.open <==> !(s.key == e.key && Readable(env, s) && s.intent == Exit)))
            && (e !in b.open ==> (e in r.open <==> s.key !in Keys(b.open) && EnteredFrom(env, s, e, bar)))
  {
    var i := IndexOf(b.open, s.key);
    if Readable(env, s) {
      match s.intent
      case Enter(side) =>
        if i == |b.open| && s.ticket.Some? && bar + 1 < env.market.bars {
          PutKeys(b.open, s.key, Opened(s, s.ticket.value, side, env.market, bar));
        }
      case Exit =>
        if i < |b.open| {
          ClosedAt(env, b, i, bar, false);
          TakenEntries(b.open, i, e);
          hide ClosePosition;
        } else {
          assert e in b.open ==> e.key in Keys(b.open);
        }
      case Other =>
    }
  }

  lemma {:induction false} SignalsSpare(env: Env, b: Book, ss: seq<Signal>, bar: int, e: Entry)
    requires Distinct(b.open)
    ensures var r := OnSignals(env, b, ss, bar);
            && Distinct(r.open) && r.active == b.active
            && (e.pos.entryBar <= bar ==> (e in r.open <==> e in b.open && !Exits(env, ss, e.key)))
            && (e in r.open && e !in b.open ==> exists i :: 0 <= i < |ss| && EnteredFrom(env, ss[i], e, bar))
    decreases |ss|
  {
    if |ss| > 0 {
      hide OnSignal, Exits;
      var c := OnSignal(env, b, ss[0], bar);
      OneSignal(env, b, ss[0], bar, e);
      SignalsSpare(env, c, ss[1..], bar, e);
      ExitsFirst(env, ss, e.key);
      if e in OnSignals(env, b, ss, bar).open && e !in b.open {
        if e in c.open {
          assert EnteredFrom(env, ss[0], e, bar);
        } else {
          var i :| 0 <= i < |ss[1..]| && EnteredFrom(env, ss[1..][i], e, bar);
          assert ss[i + 1] == ss[1..][i];
        }
      }
    } else {
      assert !Exits(env, ss, e.key);
    }
  }

  // ---- A bar ----

  /** The stages of an ordinary bar before its mark. */
  lemma BarStages(env: Env, b: Book, bar: int, input: BarInput, e: Entry)
    requires Distinct(b.open) && !input.halted
    ensures var a1 := TierTwo(env, b.(realized := 0.0), input.closeFraction, bar);
            var a2 := LossStops(env, a1, bar);
            var a4 := OnSignals(env, a2.(active := input.active), input.signals, bar);
            var r := Bar(env, b, bar, input);
            && Distinct(a1.open) && Distinct(a2.open) && Distinct(a4.open)
            && r.open == CloseBook(env, SyncActive(a4), bar, TimeStop, true).open
            && (e in r.open <==> e in a4.open && !env.timeUp(bar - e.pos.entryBar, e.pos.halfLife))
  {
    hide CloseWhere, OnSignals, LossStops, TierTwo, MarkAll, Append;
    var a0 := b.(realized := 0.0);
    var a1 := TierTwo(env, a0, input.closeFraction, bar);
    TierKeepsDistinct(env, a0, input.closeFraction, bar);
    var a2 := LossStops(env, a1, bar);
    StopsKeepDistinct(env, a1, bar);
    var a3 := a2.(active := input.active);
    SignalsSpare(env, a3, input.signals, bar, e);
    var a4 := OnSignals(env, a3, input.signals, bar);
    TimeStopsExactly(env, SyncActive(a4), bar, e);
    AppendOpen(env, b, bar, input);
  }

  lemma AppendOpen(env: Env, b: Book, bar: int, input: BarInput)
    requires !input.halted
    ensures Bar(env, b, bar, input).open == BeforeMark(env, b, bar, input).open
    ensures Bar(env, b, bar, input).active == BeforeMark(env, b, bar, input).active
    ensures Bar(env, b, bar, input).spreads == BeforeMark(env, b, bar, input).spreads
    ensures Bar(env, b, bar, input).pca == BeforeMark(env, b, bar, input).pca
  {
    hide BeforeMark, MarkAll;
  }

  lemma TierKeepsDistinct(env: Env, b: Book, fraction: real, bar: int)
    requires Distinct(b.open)
    ensures Distinct(TierTwo(env, b, fraction, bar).open)
  {
    hide CloseWhere, Weakest;
    CloseKeysExactly(env, b, Weakest(b.open, env.market, bar, TierCount(|b.open|, fraction)), bar, Entry("", HELD));
  }

  lemma StopsKeepDistinct(env: Env, b: Book, bar: int)
    requires Distinct(b.open)
    ensures Distinct(LossStops(env, b, bar).open)
  {
    hide CloseWhere, Spared;
    CloseBookSparesTheRest(env, b, bar, LossStop, true);
    SparedIsDistinct(env, b.open, bar, LossStop);
  }

  lemma {:induction false} SparedIsDistinct(env: Env, open: seq<Entry>, bar: int, t: Trigger)
    requires Distinct(open)
    ensures Distinct(Spared(env, open, bar, t))
  {
    hide Fires;
    if |open| > 0 {
      var rest := Spared(env, open[1..], bar, t);
      SparedIsDistinct(env, open[1..], bar, t);
      forall i | 0 <= i < |rest| ensures rest[i].key != open[0].key {
        SparedMember(env, open[1..], bar, t, rest[i]);
      }
    }
  }

  /** A position carried into an ordinary bar is open after it unless it is among the `n` weakest that tier 2
      closes, it is down by its stop, a signal exits it or its time is up; nothing else closes one. */
  lemma PositionsLeaveForAReason(env: Env, b: Book, bar: int, input: BarInput, n: nat, e: Entry)
    requires Distinct(b.open) && !input.halted && e.pos.entryBar <= bar
    requires input.closeFraction > 0.0 ==> TierSize(n, |b.open|, input.closeFraction)
    ensures e in Bar(env, b, bar, input).open <==>
              && e in b.open
              && !(input.closeFraction > 0.0 && e.key in Weakest(b.open, env.market, bar, n))
              && !(env.maxLoss > 0.0 && StoppedOut(env, e.pos, bar))
              && !Exits(env, input.signals, e.key)
              && !env.timeUp(bar - e.pos.entryBar, e.pos.halfLife)
  {
    hide CloseWhere, OnSignals, Weakest, Unrealized, Bar, Exits, TierCount;
    var a0 := b.(realized := 0.0);
    var a1 := TierTwo(env, a0, input.closeFraction, bar);
    if input.closeFraction > 0.0 {
      var count := TierCount(|b.open|, input.closeFraction);
      TierCountIs(|b.open|, input.closeFraction);
      OneTierSize(n, if count < |b.open| then count else |b.open|, |b.open|, input.closeFraction);
      WeakestIsCapped(b.open, env.market, bar, count);
      CloseKeysExactly(env, a0, Weakest(b.open, env.market, bar, count), bar, e);
    }
    BarStages(env, b, bar, input, e);
    LossStopsExactly(env, a1, bar, e);
    SignalsSpare(env, LossStops(env, a1, bar).(active := input.active), input.signals, bar, e);
  }

  lemma OneTierSize(n: nat, m: nat, size: nat, fraction: real)
    requires TierSize(n, size, fraction) && TierSize(m, size, fraction)
    ensures n == m
  {
    OneTierPart(n, m, size, size as real * fraction);
  }

  lemma OneTierPart(n: nat, m: nat, size: nat, share: real)
    requires TierPart(n, size, share) && TierPart(m, size, share)
    ensures n == m
  {}

  lemma WeakestIsCapped(open: seq<Entry>, m: Market, bar: int, n: nat)
    ensures Weakest(open, m, bar, n) == Weakest(open, m, bar, if n < |open| then n else |open|)
  {
    var r := Rank(open, m, bar);
    assert |r| == |multiset(r)| == |multiset(open)| == |open|;
  }

  /** A position that was not carried into a bar was opened by one of its signals, at the next bar's prices and
      with that signal's ticket; a halted bar opens none. */
  lemma PositionsEnterBySignal(env: Env, b: Book, bar: int, input: BarInput, e: Entry)
    requires Distinct(b.open) && e in Bar(env, b, bar, input).open && e !in b.open
    ensures !input.halted && exists i :: 0 <= i < |input.signals| && EnteredFrom(env, input.signals[i], e, bar)
  {
    hide CloseWhere, OnSignals, Weakest, Unrealized, EnteredFrom;
    if input.halted {
      HaltLeavesNone(env, b, bar, input);
    } else {
      var a0 := b.(realized := 0.0);
      var a1 := TierTwo(env, a0, input.closeFraction, bar);
      if input.closeFraction > 0.0 {
        CloseKeysExactly(env, a0, Weakest(b.open, env.market, bar, TierCount(|b.open|, input.closeFraction)), bar, e);
      }
      BarStages(env, b, bar, input, e);
      LossStopsExactly(env, a1, bar, e);
      SignalsSpare(env, LossStops(env, a1, bar).(active := input.active), input.signals, bar, e);
    }
  }

  lemma HaltLeavesNone(env: Env, b: Book, bar: int, input: BarInput)
    requires Distinct(b.open) && input.halted
    ensures Bar(env, b, bar, input).open == [] && Bar(env, b, bar, input).active == b.active
  {
    hide CloseWhere;
    AlwaysEmpties(env, b.(realized := 0.0), KeyList(b.open), bar, false);
    CloseKeepsActive(env, b.(realized := 0.0), KeyList(b.open), bar, Always);
  }

  lemma {:induction false} CloseKeepsActive(env: Env, b: Book, keys: seq<string>, bar: int, t: Trigger)
    ensures CloseWhere(env, b, keys, bar, t, false).active == b.active
    decreases |keys|
  {
    if |keys| > 0 {
      hide ClosePosition, Fires;
      var i := IndexOf(b.open, keys[0]);
      if i < |b.open| && Fires(env, t, b.open[i].pos, bar) {
        CloseKeepsActive(env, CloseOne(env, b, i, bar, false), keys[1..], bar, t);
      } else {
        CloseKeepsActive(env, b, keys[1..], bar, t);
      }
    }
  }

  /** The only signal for its pair, readable, let in by the gates and not on the last bar. */
  ghost predicate OnlyEntry(env: Env, ss: seq<Signal>, i: nat, bar: int) {
    && i < |ss| && Readable(env, ss[i]) && ss[i].intent.Enter? && ss[i].ticket.Some? && bar + 1 < env.market.bars
    && forall j :: 0 <= j < |ss| && j != i ==> ss[j].key != ss[i].key
  }

  lemma OtherSignal(env: Env, b: Book, s: Signal, bar: int, key: string)
    requires Distinct(b.open) && s.key != key
    ensures var r := OnSignal(env, b, s, bar);
            && (key in Keys(r.open) <==> key in Keys(b.open))
            && (key in r.spreads <==> key in b.spreads) && (key in r.pca <==> key in b.pca)
  {
    var i := IndexOf(b.open, s.key);
    if OnSignal(env, b, s, bar) != b {
      match s.intent
      case Enter(side) => PutKeys(b.open, s.key, Opened(s, s.ticket.value, side, env.market, bar));
      case Exit =>
        TakeKeys(b.open, i);
        hide ClosePosition;
      case Other =>
    }
  }

  lemma EntrySignal(env: Env, b: Book, s: Signal, bar: int) returns (e: Entry)
    requires Distinct(b.open) && s.key !in Keys(b.open) && OnlyEntry(env, [s], 0, bar)
    ensures var r := OnSignal(env, b, s, bar);
            && EnteredFrom(env, s, e, bar) && e in r.open
            && (s.ticket.value.spreadKnown ==> s.key in r.spreads && s.key in r.pca)
            && (!s.ticket.value.spreadKnown ==> r.spreads == b.spreads && r.pca == b.pca)
  {
    e := Entry(s.key, Opened(s, s.ticket.value, s.intent.side, env.market, bar));
    assert (b.open + [e])[|b.open|] == e;
  }

  /** Registers of a pair after the signals of a bar. */
  ghost predicate Registered(r: Book, s: Signal)
    requires s.ticket.Some?
  {
    (s.key in r.spreads <==> s.ticket.value.spreadKnown) && (s.key in r.pca <==> s.ticket.value.spreadKnown)
  }

  lemma {:induction false} SignalsEnter(env: Env, b: Book, ss: seq<Signal>, i: nat, bar: int) returns (e: Entry)
    requires Distinct(b.open) && OnlyEntry(env, ss, i, bar) && ss[i].key !in Keys(b.open)
    requires ss[i].key !in b.spreads && ss[i].key !in b.pca
    ensures var r := OnSignals(env, b, ss, bar);
            EnteredFrom(env, ss[i], e, bar) && e in r.open && Registered(r, ss[i])
    decreases |ss|
  {
    hide OnSignal;
    var s, c := ss[i], OnSignal(env, b, ss[0], bar);
    if i > 0 {
      OneSignal(env, b, ss[0], bar, Entry("", HELD));
      OtherSignal(env, b, ss[0], bar, s.key);
      assert ss[1..][i - 1] == s;
      forall j | 0 <= j < |ss[1..]| && j != i - 1 ensures ss[1..][j].key != s.key { assert ss[1..][j] == ss[j + 1]; }
      e := SignalsEnter(env, c, ss[1..], i - 1, bar);
    } else {
      e := EntrySignal(env, b, s, bar);
      OneSignal(env, b, s, bar, e);
      forall j | 0 <= j < |ss[1..]| ensures ss[1..][j].key != s.key { assert ss[1..][j] == ss[j + 1]; }
      SignalsLeaveAlone(env, c, ss[1..], bar, e);
    }
  }

  lemma {:induction false} SignalsLeaveAlone(env: Env, b: Book, ss: seq<Signal>, bar: int, e: Entry)
    requires Distinct(b.open) && e in b.open && forall j :: 0 <= j < |ss| ==> ss[j].key != e.key
    ensures var r := OnSignals(env, b, ss, bar);
            e in r.open && (e.key in r.spreads <==> e.key in b.spreads) && (e.key in r.pca <==> e.key in b.pca)
    decreases |ss|
  {
    if |ss| > 0 {
      hide OnSignal;
      OneSignal(env, b, ss[0], bar, e);
      OtherSignal(env, b, ss[0], bar, e.key);
      SignalsLeaveAlone(env, OnSignal(env, b, ss[0], bar), ss[1..], bar, e);
    }
  }

  /** An entry let in by the gates is opened and registered, if its pair is not open, it is that bar's only
      signal for the pair, and its time is not up before it is filled. */
  lemma AdmittedSignalsEnter(env: Env, b: Book, bar: int, input: BarInput, i: nat) returns (e: Entry)
    requires Agrees(b) && !input.halted && OnlyEntry(env, input.signals, i, bar)
    requires input.signals[i].key !in Keys(b.open) && !env.timeUp(-1, input.signals[i].ticket.value.halfLife)
    ensures var r := Bar(env, b, bar, input);
            EnteredFrom(env, input.signals[i], e, bar) && e in r.open && Registered(r, input.signals[i])
  {
    hide CloseWhere, OnSignals, TierTwo, LossStops, Bar;
    var s := input.signals[i];
    var a0 := b.(realized := 0.0);
    var a1 := TierTwo(env, a0, input.closeFraction, bar);
    var a2 := LossStops(env, a1, bar);
    TierTwoKeeps(env, a0, input.closeFraction, bar);
    LossStopsKeep(env, a1, bar);
    TierShrinks(env, a0, input.closeFraction, bar);
    StopsShrink(env, a1, bar);
    var a3 := a2.(active := input.active);
    e := SignalsEnter(env, a3, input.signals, i, bar);
    var a4 := OnSignals(env, a3, input.signals, bar);
    SignalsKeep(env, a3, input.signals, bar);
    BarStages(env, b, bar, input, e);
    TimeStopsExactly(env, SyncActive(a4), bar, e);
    AppendOpen(env, b, bar, input);
    CloseKeeps(env, SyncActive(a4), KeyList(a4.open), bar, TimeStop, true);
    CloseKeepsRegisters(env, SyncActive(a4), KeyList(a4.open), bar, TimeStop, true, s.key);
    assert s.key in Keys(Bar(env, b, bar, input).open);
  }

  /** Closing others leaves a pair's registers alone: as long as it is open, they are what they were. */
  lemma {:induction false} CloseKeepsRegisters(env: Env, b: Book, keys: seq<string>, bar: int, t: Trigger, drop: bool,
                                               key: string)
    requires Distinct(b.open) && key in Keys(CloseWhere(env, b, keys, bar, t, drop).open)
    ensures var r := CloseWhere(env, b, keys, bar, t, drop);
            key in Keys(b.open) && (key in r.spreads <==> key in b.spreads) && (key in r.pca <==> key in b.pca)
    decreases |keys|
  {
    if |keys| > 0 {
      hide ClosePosition, Fires;
      var i := IndexOf(b.open, keys[0]);
      if i < |b.open| && Fires(env, t, b.open[i].pos, bar) {
        TakeKeys(b.open, i);
        CloseKeepsRegisters(env, CloseOne(env, b, i, bar, drop), keys[1..], bar, t, drop, key);
      } else {
        CloseKeepsRegisters(env, b, keys[1..], bar, t, drop, key);
      }
    }
  }

  lemma TierShrinks(env: Env, b: Book, fraction: real, bar: int)
    requires Distinct(b.open)
    ensures Keys(TierTwo(env, b, fraction, bar).open) <= Keys(b.open)
  {
    hide CloseWhere, Weakest;
    if fraction > 0.0 { TierTwoClosesTheWeakest(env, b, fraction, bar); }
  }

  lemma StopsShrink(env: Env, b: Book, bar: int)
    requires Distinct(b.open)
    ensures Keys(LossStops(env, b, bar).open) <= Keys(b.open)
  {
    hide CloseWhere;
    forall e ensures e in LossStops(env, b, bar).open ==> e in b.open { LossStopsExactly(env, b, bar, e); }
  }

  // ---- What the strategy tracks ----

  lemma {:induction false} DropActiveExactly(env: Env, b: Book, keys: seq<string>, bar: int, t: Trigger)
    requires Distinct(b.open) && b.active <= Keys(b.open)
    ensures var r := CloseWhere(env, b, keys, bar, t, true);
            r.active == b.active * Keys(r.open) && Keys(r.open) <= Keys(b.open)
    decreases |keys|
  {
    if |keys| > 0 {
      hide ClosePosition, Fires;
      var i := IndexOf(b.open, keys[0]);
      if i < |b.open| && Fires(env, t, b.open[i].pos, bar) {
        TakeKeys(b.open, i);
        DropActiveExactly(env, CloseOne(env, b, i, bar, true), keys[1..], bar, t);
      } else {
        DropActiveExactly(env, b, keys[1..], bar, t);
      }
    }
  }

  /** After an ordinary bar the strategy tracks exactly those of its trades that are open here; a halt leaves
      what it tracks as it was, though nothing is open. */
  lemma ActiveAfterBar(env: Env, b: Book, bar: int, input: BarInput)
    requires Distinct(b.open)
    ensures var r := Bar(env, b, bar, input);
            r.active == if input.halted then b.active else input.active * Keys(r.open)
  {
    if input.halted {
      HaltLeavesNone(env, b, bar, input);
    } else {
      hide CloseWhere, OnSignals, LossStops, TierTwo, Bar;
      BarStages(env, b, bar, input, Entry("", HELD));
      AppendOpen(env, b, bar, input);
      var a1 := TierTwo(env, b.(realized := 0.0), input.closeFraction, bar);
      var a3 := LossStops(env, a1, bar).(active := input.active);
      SignalsSpare(env, a3, input.signals, bar, Entry("", HELD));
      var a4 := OnSignals(env, a3, input.signals, bar);
      DropActiveExactly(env, SyncActive(a4), KeyList(a4.open), bar, TimeStop);
    }
  }

  // ---- What a close records ----

  function TradesOf(b: Book, key: string): seq<real> { if key in b.perPair then b.perPair[key] else [] }

  /** A close takes out one entry and records, once each and under its own key, what the round trip earned
      and how long it lasted; the day's P&L is more by the entry cost. */
  lemma CloseRecords(env: Env, b: Book, i: nat, bar: int, drop: bool, key: string)
    requires i < |b.open|
    ensures var e, c := b.open[i], CloseOne(env, b, i, bar, drop);
            var at := if bar + 1 < env.market.bars then bar + 1 else env.market.bars - 1;
            var days := if at > e.pos.entryBar then at - e.pos.entryBar else 0;
            var full := Unrealized(e.pos, env.market, at) - env.charges(e.pos, days) - e.pos.entryCost;
            && c.open == b.open[..i] + b.open[i + 1..]
            && c.trades == b.trades + [full] && c.durations == b.durations + [days]
            && c.realized == b.realized + full + e.pos.entryCost
            && TradesOf(c, key) == TradesOf(b, key) + (if key == e.key then [full] else [])
            && e.key !in c.spreads && e.key !in c.pca && e.key !in c.partials
            && (e.key in c.active <==> !drop && e.key in b.active)
  {
    CloseRealisesTheMark(b.open[i].pos, env.market, env.charges, bar);
    hide Unrealized, ClosePosition;
  }

  // ---- The block after the loop ----

  /** The position at its best so far. */
  function AtPeak(env: Env, pos: Position, bar: int): Position {
    pos.(peak := Max(pos.peak, Unrealized(pos, env.market, bar)))
  }

  /** Its peak has reached the activation share of its notional and it has come down from it by the trailing
      share; without a notional both shares count as nothing. */
  predicate TrailedOut(env: Env, pos: Position, bar: int) {
    var peak, u := Max(pos.peak, Unrealized(pos, env.market, bar)), Unrealized(pos, env.market, bar);
    if pos.notional > 0.0
    then peak >= env.trailActivation * pos.notional && peak - u >= env.trailGap * pos.notional
    else 0.0 >= env.trailActivation && 0.0 >= env.trailGap
  }

  /** What a loop over the book leaves of an entry: itself, changed, or nothing. */
  datatype Fate = Leaves | Stays(pos: Position)

  function TrailFate(env: Env, pos: Position, bar: int): Fate {
    if TrailedOut(env, pos, bar) then Leaves else Stays(AtPeak(env, pos, bar))
  }

  function ProfitFate(pos: Position, t: TakeProfit): Fate {
    match t
    case Hold => Stays(pos)
    case CloseAll => Leaves
    case Part(f) => if f > 0.0 then Stays(pos.(notional := PartOf(pos.notional, 1.0 - f))) else Stays(pos)
  }

  function Remaining(open: seq<Entry>, fates: seq<Fate>): seq<Entry>
    requires |open| == |fates|
  {
    if |open| == 0 then [] else Left(open[0].key, fates[0]) + Remaining(open[1..], fates[1..])
  }

  function Left(key: string, fate: Fate): seq<Entry> {
    match fate case Leaves => [] case Stays(p) => [Entry(key, p)]
  }

  /** The book with one entry as its fate has it. */
  function Fated(open: seq<Entry>, n: nat, fate: Fate): seq<Entry>
    requires n < |open|
  {
    match fate case Leaves => Take(open, n) case Stays(p) => open[n := Entry(open[n].key, p)]
  }

  lemma FatedAfter(kept: seq<Entry>, rest: seq<Entry>, fate: Fate)
    requires |rest| > 0
    ensures Fated(kept + rest, |kept|, fate) == (kept + Left(rest[0].key, fate)) + rest[1..]
  {}

  function TrailFates(env: Env, open: seq<Entry>, bar: int): (f: seq<Fate>)
    ensures |f| == |open| && forall i :: 0 <= i < |f| ==> f[i] == TrailFate(env, open[i].pos, bar)
  {
    seq(|open|, i requires 0 <= i < |open| => TrailFate(env, open[i].pos, bar))
  }

  function ProfitFates(open: seq<Entry>, profit: string -> TakeProfit): (f: seq<Fate>)
    ensures |f| == |open| && forall i :: 0 <= i < |f| ==> f[i] == ProfitFate(open[i].pos, profit(open[i].key))
  {
    seq(|open|, i requires 0 <= i < |open| => ProfitFate(open[i].pos, profit(open[i].key)))
  }

  lemma RemainingFirst(open: seq<Entry>, fates: seq<Fate>)
    requires |open| == |fates| > 0
    ensures Remaining(open, fates) == Left(open[0].key, fates[0]) + Remaining(open[1..], fates[1..])
  {}

  lemma ReplacedAt(open: seq<Entry>, n: nat, pos: Position)
    requires Distinct(open) && n < |open|
    ensures Distinct(open[n := Entry(open[n].key, pos)])
    ensures Take(open[n := Entry(open[n].key, pos)], n) == Take(open, n)
    ensures IndexOf(open, open[n].key) == n
  {
    ReplaceKeys(open, n, pos);
    FoundAt(open, n);
  }

  lemma TrailHead(env: Env, b: Book, keys: seq<string>, n: nat, bar: int)
    requires |keys| > 0 && Distinct(b.open) && n < |b.open| && b.open[n].key == keys[0]
    ensures Trail(env, b, keys, bar) == Trail(env, TrailOne(env, b, n, bar), keys[1..], bar)
  {
    hide TrailOne;
    FoundAt(b.open, n);
  }

  lemma TrailOneIs(env: Env, b: Book, n: nat, bar: int)
    requires n < |b.open|
    ensures var e := b.open[n];
            var c := b.(open := b.open[n := Entry(e.key, AtPeak(env, e.pos, bar))]);
            TrailOne(env, b, n, bar) == if TrailedOut(env, e.pos, bar) then CloseOne(env, c, n, bar, true) else c
  {
    hide Unrealized, CloseOne;
    var e, u := b.open[n], Unrealized(b.open[n].pos, env.market, bar);
    TrailShares(Max(e.pos.peak, u), u, e.pos.notional, env.trailActivation, env.trailGap);
  }

  lemma TrailOneFate(env: Env, b: Book, n: nat, bar: int)
    requires Distinct(b.open) && n < |b.open|
    ensures var c := TrailOne(env, b, n, bar);
            && Distinct(c.open)
            && c.open == Fated(b.open, n, TrailFate(env, b.open[n].pos, bar))
  {
    hide TrailOne, TrailedOut, AtPeak, CloseOne;
    var e := b.open[n];
    TrailOneIs(env, b, n, bar);
    ReplacedAt(b.open, n, AtPeak(env, e.pos, bar));
    var c := b.(open := b.open[n := Entry(e.key, AtPeak(env, e.pos, bar))]);
    ClosedAt(env, c, n, bar, true);
  }

  lemma TrailShares(peak: real, u: real, n: real, activation: real, gap: real)
    ensures n > 0.0 ==> (peak / n >= activation <==> peak >= activation * n)
                        && ((peak - u) / n >= gap <==> peak - u >= gap * n)
  {
    if n > 0.0 {
      var x, y := peak / n, (peak - u) / n;
      assert x * n == peak && y * n == peak - u;
      ProductOrder(n, activation, x);
      ProductOrder(n, gap, y);
    }
  }

  lemma {:induction false} TrailRest(env: Env, b: Book, kept: seq<Entry>, rest: seq<Entry>, bar: int)
    requires Distinct(b.open) && b.open == kept + rest
    ensures Trail(env, b, KeyList(rest), bar).open == kept + Remaining(rest, TrailFates(env, rest, bar))
    decreases |rest|
  {
    hide Trail, TrailOne, TrailFate, Remaining, Distinct, Fated, Left;
    if |rest| > 0 {
      var n, fate := |kept|, TrailFate(env, rest[0].pos, bar);
      var c, kept' := TrailOne(env, b, n, bar), kept + Left(rest[0].key, fate);
      assert b.open[n] == rest[0];
      TrailHead(env, b, KeyList(rest), n, bar);
      TrailOneFate(env, b, n, bar);
      FatedAfter(kept, rest, fate);
      assert KeyList(rest)[1..] == KeyList(rest[1..]);
      TrailRest(env, c, kept', rest[1..], bar);
      RemainingFirst(rest, TrailFates(env, rest, bar));
      assert TrailFates(env, rest, bar)[1..] == TrailFates(env, rest[1..], bar);
      Regroup(kept, Left(rest[0].key, fate), Remaining(rest[1..], TrailFates(env, rest[1..], bar)));
    } else {
      TrailNone(env, b, rest, bar);
    }
  }

  lemma Regroup<T>(a: seq<T>, b: seq<T>, c: seq<T>)
    ensures a + b + c == a + (b + c)
  {}

  lemma TrailNone(env: Env, b: Book, rest: seq<Entry>, bar: int)
    requires rest == []
    ensures Trail(env, b, KeyList(rest), bar) == b && Remaining(rest, TrailFates(env, rest, bar)) == []
  {}

  /** The trailing loop closes exactly the positions that have come down far enough from a high enough peak,
      and raises the recorded peak of every other one to its P&L. */
  lemma TrailExactly(env: Env, b: Book, bar: int)
    requires Distinct(b.open)
    ensures Trail(env, b, KeyList(b.open), bar).open == Remaining(b.open, TrailFates(env, b.open, bar))
  {
    hide Trail, Remaining;
    assert [] + b.open == b.open;
    TrailRest(env, b, [], b.open, bar);
    assert [] + Remaining(b.open, TrailFates(env, b.open, bar)) == Remaining(b.open, TrailFates(env, b.open, bar));
  }

  /** What partial profit-taking books for one position: the round trip of a full close, or the fraction of the
      unrealised P&L less its charge. */
  function ProfitTrade(env: Env, pos: Position, bar: int, t: TakeProfit): seq<real> {
    match t
    case Hold => []
    case CloseAll => [ClosePosition(pos, env.market, env.charges, bar).full]
    case Part(f) =>
      if f > 0.0 then [PartOf(Unrealized(pos, env.market, bar), f) - env.partCharge(pos, PartOf(pos.notional, f))]
      else []
  }

  lemma ProfitOneFate(env: Env, b: Book, n: nat, bar: int, t: TakeProfit)
    requires Distinct(b.open) && n < |b.open|
    ensures var e, c := b.open[n], ProfitOne(env, b, n, bar, t);
            && Distinct(c.open) && c.trades == b.trades + ProfitTrade(env, e.pos, bar, t)
            && TradesOf(c, e.key) == TradesOf(b, e.key) + ProfitTrade(env, e.pos, bar, t)
            && c.open == Fated(b.open, n, ProfitFate(e.pos, t))
  {
    hide Unrealized, ClosePosition, PartOf;
    assert b.open[n := Entry(b.open[n].key, b.open[n].pos)] == b.open;
    match t
    case Hold =>
    case CloseAll => ClosedAt(env, b, n, bar, true);
    case Part(f) => if f > 0.0 { PartFate(env, b, n, bar, f); }
  }

  lemma PartFate(env: Env, b: Book, n: nat, bar: int, f: real)
    requires Distinct(b.open) && n < |b.open| && f > 0.0
    ensures var e, c := b.open[n], ProfitOne(env, b, n, bar, Part(f));
            var trade := PartOf(Unrealized(e.pos, env.market, bar), f)
                         - env.partCharge(e.pos, PartOf(e.pos.notional, f));
            && Distinct(c.open) && c.trades == b.trades + [trade] && TradesOf(c, e.key) == TradesOf(b, e.key) + [trade]
            && c.open == b.open[n := Entry(e.key, e.pos.(notional := PartOf(e.pos.notional, 1.0 - f)))]
  {
    hide Unrealized, PartOf;
    var e := b.open[n];
    ReplacedAt(b.open, n, PartLeft(e.pos, f));
    assert PartPnl(env, e.pos, bar, f)
           == PartOf(Unrealized(e.pos, env.market, bar), f) - env.partCharge(e.pos, PartOf(e.pos.notional, f));
    hide PartPnl, PartLeft;
  }

  lemma ProfitHead(env: Env, b: Book, keys: seq<string>, n: nat, bar: int, profit: string -> TakeProfit)
    requires |keys| > 0 && Distinct(b.open) && n < |b.open| && b.open[n].key == keys[0]
    ensures TakeProfits(env, b, keys, bar, profit)
            == TakeProfits(env, ProfitOne(env, b, n, bar, profit(keys[0])), keys[1..], bar, profit)
  {
    hide ProfitOne;
    FoundAt(b.open, n);
  }

  function ProfitTrades(env: Env, open: seq<Entry>, bar: int, profit: string -> TakeProfit): seq<real> {
    if |open| == 0 then [] else
      ProfitTrade(env, open[0].pos, bar, profit(open[0].key)) + ProfitTrades(env, open[1..], bar, profit)
  }

  lemma {:induction false} ProfitRest(env: Env, b: Book, kept: seq<Entry>, rest: seq<Entry>, bar: int,
                                      profit: string -> TakeProfit)
    requires Distinct(b.open) && b.open == kept + rest
    ensures var r := TakeProfits(env, b, KeyList(rest), bar, profit);
            && r.open == kept + Remaining(rest, ProfitFates(rest, profit))
            && r.trades == b.trades + ProfitTrades(env, rest, bar, profit)
    decreases |rest|
  {
    hide ProfitOne, ProfitFate, Remaining, Distinct, ProfitTrade, ProfitTrades, TakeProfits, Fated, Left;
    if |rest| > 0 {
      var n, fate := |kept|, ProfitFate(rest[0].pos, profit(rest[0].key));
      var c, kept' := ProfitOne(env, b, n, bar, profit(rest[0].key)), kept + Left(rest[0].key, fate);
      assert b.open[n] == rest[0];
      ProfitHead(env, b, KeyList(rest), n, bar, profit);
      ProfitOneFate(env, b, n, bar, profit(rest[0].key));
      FatedAfter(kept, rest, fate);
      assert KeyList(rest)[1..] == KeyList(rest[1..]);
      ProfitRest(env, c, kept', rest[1..], bar, profit);
      RemainingFirst(rest, ProfitFates(rest, profit));
      assert ProfitFates(rest, profit)[1..] == ProfitFates(rest[1..], profit);
      Regroup(kept, Left(rest[0].key, fate), Remaining(rest[1..], ProfitFates(rest[1..], profit)));
      ProfitTradesFirst(env, rest, bar, profit);
      Regroup(b.trades, ProfitTrade(env, rest[0].pos, bar, profit(rest[0].key)),
              ProfitTrades(env, rest[1..], bar, profit));
    } else {
      ProfitNone(env, b, rest, bar, profit);
    }
  }

  lemma ProfitTradesFirst(env: Env, open: seq<Entry>, bar: int, profit: string -> TakeProfit)
    requires |open| > 0
    ensures ProfitTrades(env, open, bar, profit)
            == ProfitTrade(env, open[0].pos, bar, profit(open[0].key)) + ProfitTrades(env, open[1..], bar, profit)
  {}

  lemma ProfitNone(env: Env, b: Book, rest: seq<Entry>, bar: int, profit: string -> TakeProfit)
    requires rest == []
    ensures TakeProfits(env, b, KeyList(rest), bar, profit) == b && Remaining(rest, ProfitFates(rest, profit)) == []
    ensures ProfitTrades(env, rest, bar, profit) == []
  {}

  /** Profit-taking closes, shrinks or leaves each position of the book once, as it is told for its key, and books
      a trade for each it touches, in book order. */
  lemma ProfitsExactly(env: Env, b: Book, bar: int, profit: string -> TakeProfit)
    requires Distinct(b.open)
    ensures var r := TakeProfits(env, b, KeyList(b.open), bar, profit);
            && r.open == Remaining(b.open, ProfitFates(b.open, profit))
            && r.trades == b.trades + ProfitTrades(env, b.open, bar, profit)
  {
    hide TakeProfits, Remaining, ProfitTrades;
    assert [] + b.open == b.open;
    ProfitRest(env, b, [], b.open, bar, profit);
    assert [] + Remaining(b.open, ProfitFates(b.open, profit)) == Remaining(b.open, ProfitFates(b.open, profit));
  }

  lemma {:induction false} RemainingMember(open: seq<Entry>, fates: seq<Fate>, e: Entry)
    requires |open| == |fates|
    ensures e in Remaining(open, fates)
            <==> exists i :: 0 <= i < |open| && open[i].key == e.key && fates[i] == Stays(e.pos)
  {
    if |open| > 0 {
      RemainingMember(open[1..], fates[1..], e);
      if exists i :: 0 <= i < |open| && open[i].key == e.key && fates[i] == Stays(e.pos) {
        var i :| 0 <= i < |open| && open[i].key == e.key && fates[i] == Stays(e.pos);
        if i > 0 { assert open[1..][i - 1] == open[i] && fates[1..][i - 1] == fates[i]; }
      }
      if e in Remaining(open[1..], fates[1..]) {
        var i :| 0 <= i < |open[1..]| && open[1..][i].key == e.key && fates[1..][i] == Stays(e.pos);
        assert open[i + 1] == open[1..][i] && fates[i + 1] == fates[1..][i];
      }
    }
  }

  lemma {:induction false} RemainingIsDistinct(open: seq<Entry>, fates: seq<Fate>)
    requires |open| == |fates| && Distinct(open)
    ensures Distinct(Remaining(open, fates))
  {
    if |open| > 0 {
      var rest := Remaining(open[1..], fates[1..]);
      RemainingIsDistinct(open[1..], fates[1..]);
      forall j | 0 <= j < |rest| ensures rest[j].key != open[0].key {
        RemainingMember(open[1..], fates[1..], rest[j]);
      }
    }
  }

  lemma HeldStays(open: seq<Entry>, profit: string -> TakeProfit, e: Entry)
    requires profit(e.key) == Hold
    ensures e in Remaining(open, ProfitFates(open, profit)) <==> e in open
  {
    var fates := ProfitFates(open, profit);
    RemainingMember(open, fates, e);
    if e in open {
      var i :| 0 <= i < |open| && open[i] == e;
      assert open[i].key == e.key && fates[i] == Stays(e.pos);
    }
  }

  lemma TimeKeepsDistinct(env: Env, b: Book, bar: int)
    requires Distinct(b.open)
    ensures Distinct(CloseBook(env, b, bar, TimeStop, true).open)
  {
    hide CloseWhere, Spared;
    CloseBookSparesTheRest(env, b, bar, TimeStop, true);
    SparedIsDistinct(env, b.open, bar, TimeStop);
  }

  /** The book once the reverted position is out and profits are taken. */
  function AfterProfits(env: Env, b: Book, i: nat, bar: int, input: PassInput): Book
    requires i < |b.open|
  {
    var a1 := if input.reverted then CloseOne(env, b, i, bar, true) else b;
    TakeProfits(env, a1, KeyList(a1.open), bar, input.profit)
  }

  /** What is left of the book when the trailing stops begin. */
  function BeforeTrail(env: Env, b: Book, i: nat, bar: int, input: PassInput): Book
    requires i < |b.open|
  {
    LossStops(env, CloseBook(env, AfterProfits(env, b, i, bar, input), bar, TimeStop, true), bar)
  }

  lemma HeldAfterProfits(env: Env, b: Book, i: nat, bar: int, input: PassInput, e: Entry)
    requires Distinct(b.open) && i < |b.open| && input.profit(e.key) == Hold
    ensures var r := AfterProfits(env, b, i, bar, input);
            Distinct(r.open) && (e in r.open <==> e in b.open && !(input.reverted && e.key == b.open[i].key))
  {
    hide TakeProfits, Remaining, CloseOne, Distinct;
    var a1 := if input.reverted then CloseOne(env, b, i, bar, true) else b;
    if input.reverted {
      ClosedAt(env, b, i, bar, true);
      TakenEntries(b.open, i, e);
    }
    ProfitsExactly(env, a1, bar, input.profit);
    RemainingIsDistinct(a1.open, ProfitFates(a1.open, input.profit));
    HeldStays(a1.open, input.profit, e);
  }

  lemma HeldBeforeTrail(env: Env, b: Book, i: nat, bar: int, input: PassInput, e: Entry)
    requires Distinct(b.open) && i < |b.open| && input.profit(e.key) == Hold
    ensures var r := BeforeTrail(env, b, i, bar, input);
            && Distinct(r.open)
            && (e in r.open <==>
                  && e in b.open && !(input.reverted && e.key == b.open[i].key)
                  && !env.timeUp(bar - e.pos.entryBar, e.pos.halfLife)
                  && !(env.maxLoss > 0.0 && StoppedOut(env, e.pos, bar)))
  {
    hide CloseWhere, LossStops, AfterProfits, Unrealized, Distinct;
    var a2 := AfterProfits(env, b, i, bar, input);
    var a3 := CloseBook(env, a2, bar, TimeStop, true);
    HeldAfterProfits(env, b, i, bar, input, e);
    TimeStopsExactly(env, a2, bar, e);
    TimeKeepsDistinct(env, a2, bar);
    LossStopsExactly(env, a3, bar, e);
    StopsKeepDistinct(env, a3, bar);
  }

  /** Of a book in which only `e` has its key, the trailing loop leaves `e` at its peak exactly if it has not
      come down. */
  lemma TrailedStays(env: Env, open: seq<Entry>, bar: int, e: Entry)
    requires forall f :: f in open && f.key == e.key ==> f == e
    ensures Entry(e.key, AtPeak(env, e.pos, bar)) in Remaining(open, TrailFates(env, open, bar))
            <==> e in open && !TrailedOut(env, e.pos, bar)
  {
    hide TrailedOut, AtPeak;
    var fates, kept := TrailFates(env, open, bar), Entry(e.key, AtPeak(env, e.pos, bar));
    RemainingMember(open, fates, kept);
    if e in open && !TrailedOut(env, e.pos, bar) {
      var i :| 0 <= i < |open| && open[i] == e;
      assert open[i].key == kept.key && fates[i] == Stays(kept.pos);
    }
    if kept in Remaining(open, fates) {
      var i :| 0 <= i < |open| && open[i].key == kept.key && fates[i] == Stays(kept.pos);
      assert open[i] in open && open[i] == e;
    }
  }

  lemma PassOpen(env: Env, b: Book, i: nat, bar: int, input: PassInput)
    requires i < |b.open|
    ensures var a4 := BeforeTrail(env, b, i, bar, input);
            Pass(env, b, i, bar, input).open
            == if env.trailActivation > 0.0 then Trail(env, a4, KeyList(a4.open), bar).open else a4.open
  {
    hide CloseWhere, TakeProfits, Trail, CloseOne, MarkAll, LossStops;
  }

  /** One pass: the position the pass is for leaves if its spread has reverted. Any other, told to hold, leaves
      exactly if its time is up, it is down by its stop or, with a trailing stop, it has come down from its peak;
      one that stays keeps everything but a raised peak. */
  lemma PositionsLeaveAPassForAReason(env: Env, b: Book, i: nat, bar: int, input: PassInput, j: nat)
    requires Distinct(b.open) && i < |b.open| && j < |b.open| && input.profit(b.open[j].key) == Hold
    ensures var e, trails := b.open[j], env.trailActivation > 0.0;
            Entry(e.key, if trails then AtPeak(env, e.pos, bar) else e.pos) in Pass(env, b, i, bar, input).open <==>
              && !(input.reverted && i == j)
              && !env.timeUp(bar - e.pos.entryBar, e.pos.halfLife)
              && !(env.maxLoss > 0.0 && StoppedOut(env, e.pos, bar))
              && !(trails && TrailedOut(env, e.pos, bar))
  {
    hide Trail, Remaining, StoppedOut, TrailedOut, AtPeak, BeforeTrail, Pass;
    var e, a4 := b.open[j], BeforeTrail(env, b, i, bar, input);
    assert e in b.open && (e.key == b.open[i].key <==> i == j);
    HeldBeforeTrail(env, b, i, bar, input, e);
    PassOpen(env, b, i, bar, input);
    if env.trailActivation > 0.0 {
      TrailExactly(env, a4, bar);
      forall f | f in a4.open && f.key == e.key ensures f == e {
        HeldBeforeTrail(env, b, i, bar, input, f);
        var k :| 0 <= k < |b.open| && b.open[k] == f;
      }
      TrailedStays(env, a4.open, bar, e);
    }
  }
}
