/** What is booked when everything goes: by a halt, and by the block and the force-close after the bar loop of
    Simulator. However a position leaves there, it is booked once, at the prices of the last bar. */
module EndLaws {
  import opened Foundations
  import opened PairBook
  import opened Simulator
  import opened SimulatorLaws
  import opened CloseLaws

  /** What a position's round trip earns when it is closed at the prices of bar `at`. */
  function Outcome(env: Env, pos: Position, at: int): real {
    var days: nat := if at > pos.entryBar then at - pos.entryBar else 0;
    Unrealized(pos, env.market, at) - env.charges(pos, days) - pos.entryCost
  }

  function Outcomes(env: Env, open: seq<Entry>, at: int): seq<real> {
    if |open| == 0 then [] else [Outcome(env, open[0].pos, at)] + Outcomes(env, open[1..], at)
  }

  /** The trades booked so far, and those there would be if all that is open were closed at bar `at`. */
  ghost function Owed(env: Env, b: Book, at: int): multiset<real> {
    multiset(b.trades) + multiset(Outcomes(env, b.open, at))
  }

  lemma {:induction false} OutcomesJoin(env: Env, a: seq<Entry>, b: seq<Entry>, at: int)
    ensures Outcomes(env, a + b, at) == Outcomes(env, a, at) + Outcomes(env, b, at)
  {
    hide Outcome;
    if |a| == 0 {
      assert a + b == b;
    } else {
      assert (a + b)[1..] == a[1..] + b;
      OutcomesJoin(env, a[1..], b, at);
    }
  }

  lemma OutcomesAround(env: Env, open: seq<Entry>, i: nat, at: int)
    requires i < |open|
    ensures Outcomes(env, open, at)
            == Outcomes(env, open[..i], at) + [Outcome(env, open[i].pos, at)] + Outcomes(env, open[i + 1..], at)
  {
    hide Outcome;
    assert open == open[..i] + open[i..] && open[i..][1..] == open[i + 1..];
    OutcomesJoin(env, open[..i], open[i..], at);
  }

  /** A close moves a position's outcome from what is owed to what is booked. */
  lemma CloseOwes(env: Env, b: Book, i: nat, bar: int, drop: bool, at: int)
    requires i < |b.open| && at == if bar + 1 < env.market.bars then bar + 1 else env.market.bars - 1
    ensures Owed(env, CloseOne(env, b, i, bar, drop), at) == Owed(env, b, at)
  {
    hide CloseOne, Outcome, Outcomes;
    var before, after := b.open[..i], b.open[i + 1..];
    CloseTakes(env, b, i, bar, drop, at);
    OutcomesAround(env, b.open, i, at);
    OutcomesJoin(env, before, after, at);
    MovesOne(b.trades, Outcomes(env, before, at), Outcome(env, b.open[i].pos, at), Outcomes(env, after, at));
  }

  lemma CloseTakes(env: Env, b: Book, i: nat, bar: int, drop: bool, at: int)
    requires i < |b.open| && at == if bar + 1 < env.market.bars then bar + 1 else env.market.bars - 1
    ensures var c := CloseOne(env, b, i, bar, drop);
            && c.trades == b.trades + [Outcome(env, b.open[i].pos, at)]
            && c.open == b.open[..i] + b.open[i + 1..]
  {
    CloseRecords(env, b, i, bar, drop, b.open[i].key);
    hide CloseOne, Unrealized;
  }

  lemma MovesOne(trades: seq<real>, before: seq<real>, x: real, after: seq<real>)
    ensures multiset(trades + [x]) + multiset(before + after) == multiset(trades) + multiset(before + [x] + after)
  {}

  lemma {:induction false} CloseWhereOwes(env: Env, b: Book, keys: seq<string>, bar: int, t: Trigger, drop: bool,
                                          at: int)
    requires at == if bar + 1 < env.market.bars then bar + 1 else env.market.bars - 1
    ensures Owed(env, CloseWhere(env, b, keys, bar, t, drop), at) == Owed(env, b, at)
    decreases |keys|
  {
    hide Fires, CloseOne, Owed;
    if |keys| > 0 {
      var i := IndexOf(b.open, keys[0]);
      if i < |b.open| && Fires(env, t, b.open[i].pos, bar) {
        CloseOwes(env, b, i, bar, drop, at);
        CloseWhereOwes(env, CloseOne(env, b, i, bar, drop), keys[1..], bar, t, drop, at);
      } else {
        CloseWhereOwes(env, b, keys[1..], bar, t, drop, at);
      }
    }
  }

  lemma NothingOwed(env: Env, b: Book, at: int)
    requires b.open == []
    ensures Owed(env, b, at) == multiset(b.trades)
  {}

  /** A halt books every open position once, at the prices of the next bar, and nothing else. */
  lemma HaltBooksAll(env: Env, b: Book, bar: int, input: BarInput)
    requires Distinct(b.open) && input.halted
    ensures var at := if bar + 1 < env.market.bars then bar + 1 else env.market.bars - 1;
            multiset(Bar(env, b, bar, input).trades) == multiset(b.trades) + multiset(Outcomes(env, b.open, at))
  {
    hide CloseWhere, Owed;
    var at := if bar + 1 < env.market.bars then bar + 1 else env.market.bars - 1;
    var b0 := b.(realized := 0.0);
    var c := CloseBook(env, b0, bar, Always, false);
    CloseWhereOwes(env, b0, KeyList(b.open), bar, Always, false, at);
    AlwaysEmpties(env, b0, KeyList(b.open), bar, false);
    NothingOwed(env, c, at);
    OwedIs(env, b, b0, at);
    assert Bar(env, b, bar, input).trades == c.trades;
  }

  lemma OwedIs(env: Env, b: Book, c: Book, at: int)
    requires b.open == c.open && b.trades == c.trades
    ensures Owed(env, b, at) == Owed(env, c, at) == multiset(b.trades) + multiset(Outcomes(env, b.open, at))
  {}

  // ---- After the loop ----

  /** The charges of a close do not look at the recorded peak. */
  ghost predicate PeakBlind(env: Env) {
    forall pos: Position, peak, days :: env.charges(pos.(peak := peak), days) == env.charges(pos, days)
  }

  lemma PeakChangesNothing(env: Env, b: Book, i: nat, peak: real, at: int)
    requires PeakBlind(env) && i < |b.open|
    ensures var e := b.open[i];
            Owed(env, b.(open := b.open[i := Entry(e.key, e.pos.(peak := peak))]), at) == Owed(env, b, at)
  {
    var e, open := b.open[i], b.open[i := Entry(b.open[i].key, b.open[i].pos.(peak := peak))];
    assert Outcome(env, e.pos.(peak := peak), at) == Outcome(env, e.pos, at);
    hide Outcome, Outcomes;
    OutcomesAround(env, b.open, i, at);
    OutcomesAround(env, open, i, at);
    assert open[..i] == b.open[..i] && open[i + 1..] == b.open[i + 1..];
  }

  lemma {:induction false} TrailOwes(env: Env, b: Book, keys: seq<string>, at: int)
    requires PeakBlind(env) && at == env.market.bars - 1
    ensures Owed(env, Trail(env, b, keys, at), at) == Owed(env, b, at)
    decreases |keys|
  {
    hide Owed, TrailOne;
    if |keys| > 0 {
      var i := IndexOf(b.open, keys[0]);
      if i < |b.open| {
        TrailOneOwes(env, b, i, at);
        TrailOwes(env, TrailOne(env, b, i, at), keys[1..], at);
      } else {
        TrailOwes(env, b, keys[1..], at);
      }
    }
  }

  lemma TrailOneOwes(env: Env, b: Book, i: nat, at: int)
    requires PeakBlind(env) && at == env.market.bars - 1 && i < |b.open|
    ensures Owed(env, TrailOne(env, b, i, at), at) == Owed(env, b, at)
  {
    var e := b.open[i];
    var c := b.(open := b.open[i := Entry(e.key, AtPeak(env, e.pos, at))]);
    TrailOneIs(env, b, i, at);
    hide Owed, TrailOne, CloseOne, TrailedOut, Unrealized;
    PeakChangesNothing(env, b, i, AtPeak(env, e.pos, at).peak, at);
    CloseOwes(env, c, i, at, true, at);
  }

  /** Partial profit-taking never takes a part. */
  ghost predicate NoParts(profit: string -> TakeProfit) {
    forall key :: profit(key).Part? ==> profit(key).fraction <= 0.0
  }

  lemma {:induction false} ProfitsOwe(env: Env, b: Book, keys: seq<string>, at: int, profit: string -> TakeProfit)
    requires NoParts(profit) && at == env.market.bars - 1
    ensures Owed(env, TakeProfits(env, b, keys, at, profit), at) == Owed(env, b, at)
    decreases |keys|
  {
    hide Owed, CloseOne, BookPart;
    if |keys| > 0 {
      var i := IndexOf(b.open, keys[0]);
      if i < |b.open| {
        CloseOwes(env, b, i, at, true, at);
        ProfitsOwe(env, ProfitOne(env, b, i, at, profit(keys[0])), keys[1..], at, profit);
      } else {
        ProfitsOwe(env, b, keys[1..], at, profit);
      }
    }
  }

  lemma PassOwes(env: Env, b: Book, i: nat, at: int, input: PassInput)
    requires PeakBlind(env) && NoParts(input.profit) && at == env.market.bars - 1 && i < |b.open|
    ensures Owed(env, Pass(env, b, i, at, input), at) == Owed(env, b, at)
  {
    hide Owed, CloseOne, TakeProfits, CloseWhere, Trail, MarkAll, KeyList, PeakBlind, NoParts;
    var b1 := if input.reverted then CloseOne(env, b, i, at, true) else b;
    CloseOwes(env, b, i, at, true, at);
    var b2 := TakeProfits(env, b1, KeyList(b1.open), at, input.profit);
    ProfitsOwe(env, b1, KeyList(b1.open), at, input.profit);
    var b25 := CloseBook(env, b2, at, TimeStop, true);
    CloseWhereOwes(env, b2, KeyList(b2.open), at, TimeStop, true, at);
    var b3 := LossStops(env, b25, at);
    CloseWhereOwes(env, b25, KeyList(b25.open), at, LossStop, true, at);
    TrailOwes(env, b3, KeyList(b3.open), at);
    OwedIs(env, PassBeforeMark(env, b, i, at, input), Pass(env, b, i, at, input), at);
  }

  lemma {:induction false} PassesOwe(env: Env, b: Book, keys: seq<string>, at: int, inputs: string -> PassInput)
    requires PeakBlind(env) && (forall key :: NoParts(inputs(key).profit)) && at == env.market.bars - 1
    ensures Owed(env, Passes(env, b, keys, at, inputs), at) == Owed(env, b, at)
    decreases |keys|
  {
    hide Owed, Pass, PeakBlind, NoParts;
    if |keys| > 0 {
      var i := IndexOf(b.open, keys[0]);
      if i < |b.open| {
        PassOwes(env, b, i, at, inputs(keys[0]));
        PassesOwe(env, Pass(env, b, i, at, inputs(keys[0])), keys[1..], at, inputs);
      } else {
        PassesOwe(env, b, keys[1..], at, inputs);
      }
    }
  }

  /** However they leave after the bar loop, reverted, out of time, stopped, trailed out, by a full profit or by
      the force-close: as long as no part is taken, the positions open after the loop are booked once each, at
      the prices of the last bar, and nothing else is. */
  lemma LastBarBooksAll(env: Env, b: Book, passes: string -> PassInput)
    requires Agrees(b) && PeakBlind(env) && forall key :: NoParts(passes(key).profit)
    ensures multiset(Finish(env, b, passes).trades)
            == multiset(b.trades) + multiset(Outcomes(env, b.open, env.market.bars - 1))
  {
    hide Owed, Outcomes, Finish, Passes, FinalClose, Agrees, PeakBlind, NoParts, KeyList;
    var at := env.market.bars - 1;
    var c, r := Passes(env, b, KeyList(b.open), at, passes), Finish(env, b, passes);
    PassesOwe(env, b, KeyList(b.open), at, passes);
    FinalCloseOwes(env, c, at);
    assert r == FinalClose(env, c) by { FinishIs(env, b, passes); }
    FinishLedger(env, b, passes);
    NothingOwed(env, r, at);
    OwedIs(env, b, b, at);
  }

  lemma FinishIs(env: Env, b: Book, passes: string -> PassInput)
    ensures Finish(env, b, passes)
            == FinalClose(env, Passes(env, b, KeyList(b.open), env.market.bars - 1, passes))
  {
    hide Passes, FinalClose, KeyList;
  }

  lemma FinalCloseOwes(env: Env, c: Book, at: int)
    requires at == env.market.bars - 1
    ensures Owed(env, FinalClose(env, c), at) == Owed(env, c, at)
  {
    hide Owed, CloseWhere, KeyList;
    var c0 := c.(realized := 0.0);
    OwedIs(env, c, c0, at);
    CloseWhereOwes(env, c0, KeyList(c.open), at, Always, false, at);
    if |c.open| > 0 { OwedIs(env, CloseBook(env, c0, at, Always, false), FinalClose(env, c), at); }
  }
}
