/** Returns and the out-of-sample window of a backtest: what the figures reported for it are made of. */
module WindowLaws {
  import opened Foundations
  import opened PairBook
  import opened Simulator
  import opened SimulatorLaws
  import opened Metrics

  // ---- Compounding ----

  /** Every recorded return is the relative change of the portfolio value it was recorded with. */
  ghost predicate Compounds(b: Book) {
    ReturnsOf(b.values, b.daily)
  }

  // ---- Out-of-sample window ----

  /** The tracker's list is the tail of the daily returns from the first out-of-sample bar on. */
  ghost predicate Windowed(b: Book, lookback: int) {
    match b.oosStart
    case None => b.oosReturns == [] && b.oosTrade == None
    case Some(s) =>
      && s >= lookback
      && (b.oosTrade == None <==> |b.daily| <= s - lookback)
      && b.oosReturns == if |b.daily| <= s - lookback then [] else b.daily[s - lookback..]
  }

  /** A bar number under which the tracker records what it should. */
  ghost predicate BarFits(b: Book, bar: int, lookback: int) {
    b.oosStart.Some? ==> (bar >= b.oosStart.value <==> |b.daily| >= b.oosStart.value - lookback)
  }

  lemma AppendCompounds(b: Book, change: real, bar: int, lookback: int)
    requires Compounds(b) && Windowed(b, lookback) && BarFits(b, bar, lookback)
    ensures Compounds(Append(b, change, bar)) && Windowed(Append(b, change, bar), lookback)
  {}

  /** What the bar loop keeps about returns and the window, with the bar number it is at. */
  ghost predicate InLoop(b: Book, bar: int, lookback: int) {
    Compounds(b) && Windowed(b, lookback) && bar == lookback + |b.daily|
  }

  lemma BarCompounds(env: Env, b: Book, bar: int, input: BarInput, lookback: int)
    requires InLoop(b, bar, lookback)
    ensures InLoop(Bar(env, b, bar, input), bar + 1, lookback)
  {
    hide Settle, Agrees;
    SettleKeeps(env, b, bar, input);
    var (c, change) := Settle(env, b, bar, input);
    AppendCompounds(c, change, bar, lookback);
  }

  lemma {:induction false} BarsCompound(env: Env, b: Book, bar: int, inputs: seq<BarInput>, lookback: int)
    requires InLoop(b, bar, lookback)
    ensures InLoop(Bars(env, b, bar, inputs), bar + |inputs|, lookback)
    decreases |inputs|
  {
    if |inputs| > 0 {
      hide Bar, InLoop;
      BarCompounds(env, b, bar, inputs[0], lookback);
      BarsCompound(env, Bar(env, b, bar, inputs[0]), bar + 1, inputs[1..], lookback);
    }
  }

  ghost predicate AfterLoop(b: Book, env: Env, lookback: int) {
    && Compounds(b) && Windowed(b, lookback)
    && (b.oosStart.Some? ==> b.oosStart.value <= env.market.bars - 1)
    && |b.daily| >= env.market.bars - lookback
  }

  lemma PassCompounds(env: Env, b: Book, i: nat, input: PassInput, lookback: int)
    requires i < |b.open| && AfterLoop(b, env, lookback)
    ensures AfterLoop(Pass(env, b, i, env.market.bars - 1, input), env, lookback)
  {
    hide PassBeforeMark, MarkAll, Net, Agrees;
    PassKeeps(env, b, i, env.market.bars - 1, input);
    var (c, change) := Marked(env, PassBeforeMark(env, b, i, env.market.bars - 1, input), env.market.bars - 1);
    AppendCompounds(c, change, env.market.bars - 1, lookback);
  }

  lemma {:induction false} PassesCompound(env: Env, b: Book, keys: seq<string>, inputs: string -> PassInput,
                                          lookback: int)
    requires AfterLoop(b, env, lookback)
    ensures AfterLoop(Passes(env, b, keys, env.market.bars - 1, inputs), env, lookback)
    decreases |keys|
  {
    if |keys| > 0 {
      hide Pass, AfterLoop;
      var i := IndexOf(b.open, keys[0]);
      if i == |b.open| {
        PassesCompound(env, b, keys[1..], inputs, lookback);
      } else {
        PassCompounds(env, b, i, inputs(keys[0]), lookback);
        PassesCompound(env, Pass(env, b, i, env.market.bars - 1, inputs(keys[0])), keys[1..], inputs, lookback);
      }
    }
  }

  lemma FinalCloseCompounds(env: Env, b: Book, lookback: int)
    requires AfterLoop(b, env, lookback)
    ensures AfterLoop(FinalClose(env, b), env, lookback)
  {
    hide CloseWhere, Net, Agrees;
    CloseKeeps(env, b.(realized := 0.0), KeyList(b.open), env.market.bars - 1, Always, false);
    var c := CloseBook(env, b.(realized := 0.0), env.market.bars - 1, Always, false);
    AppendCompounds(c, c.realized, env.market.bars - 1, lookback);
  }

  /** Trades handed to the metrics: the window's when there is one, else all of them. */
  function MetricTrades(b: Book): seq<real> {
    if b.oosStart.Some? && |b.oosReturns| > 0
    then if b.oosTrade.Some? && b.oosTrade.value <= |b.trades| then b.trades[b.oosTrade.value..] else []
    else b.trades
  }

  /** Returns handed to the metrics: likewise, and a single zero when nothing was recorded. */
  function MetricReturns(b: Book): seq<real> {
    if b.oosStart.Some? && |b.oosReturns| > 0 then b.oosReturns
    else if |b.daily| > 0 then b.daily else [0.0]
  }

  lemma FinishCompounds(env: Env, capital: real, oosStart: Option<nat>, lookback: nat, inputs: seq<BarInput>,
                        passes: string -> PassInput)
    requires lookback < env.market.bars && |inputs| == env.market.bars - lookback
    requires oosStart.Some? ==> lookback <= oosStart.value < env.market.bars
    ensures var r := Finish(env, Bars(env, Fresh(capital, oosStart), lookback, inputs), passes);
            AfterLoop(r, env, lookback) && r.oosStart == oosStart
  {
    hide Bars, Passes, FinalClose;
    var f := Fresh(capital, oosStart);
    BarsCompound(env, f, lookback, inputs, lookback);
    BarsExtend(env, f, lookback, inputs);
    var b := Bars(env, f, lookback, inputs);
    PassesCompound(env, b, KeyList(b.open), passes, lookback);
    var p := Passes(env, b, KeyList(b.open), env.market.bars - 1, passes);
    FinalCloseCompounds(env, p, lookback);
    FinishExtends(env, b, passes);
  }

  /** Compounding agrees with equity: through ordinary, halt, trailing and final appends, while every
      value from the window's start to the last but one is positive, the metrics' total return is final
      value over the value the window opened with, less one. */
  lemma TotalReturnIsEquityRatio(env: Env, capital: real, oosStart: Option<nat>, lookback: nat,
                                 inputs: seq<BarInput>, passes: string -> PassInput)
    requires lookback < env.market.bars && |inputs| == env.market.bars - lookback
    requires oosStart.Some? ==> lookback <= oosStart.value < env.market.bars
    ensures var r := Finish(env, Bars(env, Fresh(capital, oosStart), lookback, inputs), passes);
            var first := if oosStart.Some? then oosStart.value - lookback else 0;
            && |r.values| == |r.daily| + 1 && first < |r.daily|
            && MetricReturns(r) == r.daily[first..]
            && ((forall k :: first <= k < |r.values| - 1 ==> r.values[k] > 0.0) ==>
                  FromReturns(MetricReturns(r), MetricTrades(r)).totalReturn == Last(r.values) / r.values[first] - 1.0)
  {
    hide Bars, Finish;
    FinishCompounds(env, capital, oosStart, lookback, inputs, passes);
    var r := Finish(env, Bars(env, Fresh(capital, oosStart), lookback, inputs), passes);
    var first := if oosStart.Some? then oosStart.value - lookback else 0;
    if forall k :: first <= k < |r.values| - 1 ==> r.values[k] > 0.0 {
      GrowthIsRatio(r.values, r.daily, first, |r.daily|);
      assert r.daily[first..|r.daily|] == r.daily[first..];
    }
  }

  // ---- The window's trades ----

  /** Trades are only ever appended; the window's start stays, and so does its trade index once noted. */
  ghost predicate Extends(a: Book, b: Book) {
    b.oosStart == a.oosStart && (a.oosTrade.Some? ==> b.oosTrade == a.oosTrade) && a.trades <= b.trades
  }

  lemma ExtendsChain(a: Book, b: Book, c: Book)
    requires Extends(a, b) && Extends(b, c)
    ensures Extends(a, c)
  {}

  lemma BarExtends(env: Env, b: Book, bar: int, input: BarInput)
    ensures Extends(b, Bar(env, b, bar, input))
  {
    hide Settle, Agrees;
    SettleKeeps(env, b, bar, input);
  }

  lemma {:induction false} BarsExtend(env: Env, b: Book, bar: int, inputs: seq<BarInput>)
    ensures Extends(b, Bars(env, b, bar, inputs))
    decreases |inputs|
  {
    if |inputs| > 0 {
      hide Bar, Extends;
      var c := Bar(env, b, bar, inputs[0]);
      BarExtends(env, b, bar, inputs[0]);
      BarsExtend(env, c, bar + 1, inputs[1..]);
      ExtendsChain(b, c, Bars(env, c, bar + 1, inputs[1..]));
    }
  }

  lemma PassExtends(env: Env, b: Book, i: nat, bar: int, input: PassInput)
    requires i < |b.open|
    ensures Extends(b, Pass(env, b, i, bar, input))
  {
    hide PassBeforeMark, MarkAll, Net, Agrees;
    PassKeeps(env, b, i, bar, input);
  }

  lemma {:induction false} PassesExtend(env: Env, b: Book, keys: seq<string>, bar: int, inputs: string -> PassInput)
    ensures Extends(b, Passes(env, b, keys, bar, inputs))
    decreases |keys|
  {
    if |keys| > 0 {
      hide Pass;
      var i := IndexOf(b.open, keys[0]);
      if i == |b.open| {
        PassesExtend(env, b, keys[1..], bar, inputs);
      } else {
        var c := Pass(env, b, i, bar, inputs(keys[0]));
        PassExtends(env, b, i, bar, inputs(keys[0]));
        PassesExtend(env, c, keys[1..], bar, inputs);
        ExtendsChain(b, c, Passes(env, c, keys[1..], bar, inputs));
      }
    }
  }

  lemma FinalCloseExtends(env: Env, b: Book)
    ensures Extends(b, FinalClose(env, b))
  {
    hide CloseWhere, Net, Agrees;
    CloseKeeps(env, b.(realized := 0.0), KeyList(b.open), env.market.bars - 1, Always, false);
  }

  lemma FinishExtends(env: Env, b: Book, passes: string -> PassInput)
    ensures Extends(b, Finish(env, b, passes))
  {
    hide Passes, FinalClose, Extends;
    var p := Passes(env, b, KeyList(b.open), env.market.bars - 1, passes);
    PassesExtend(env, b, KeyList(b.open), env.market.bars - 1, passes);
    FinalCloseExtends(env, p);
    ExtendsChain(b, p, FinalClose(env, p));
  }

  lemma {:induction false} BarsSplit(env: Env, b: Book, bar: int, early: seq<BarInput>, late: seq<BarInput>)
    ensures Bars(env, b, bar, early + late) == Bars(env, Bars(env, b, bar, early), bar + |early|, late)
    decreases |early|
  {
    hide Bar;
    if |early| == 0 {
      assert early + late == late;
    } else {
      assert (early + late)[1..] == early[1..] + late;
      BarsSplit(env, Bar(env, b, bar, early[0]), bar + 1, early[1..], late);
    }
  }

  /** A run up to and with bar number n of its inputs is the run before it and that bar. */
  lemma BarsLast(env: Env, b: Book, bar: int, inputs: seq<BarInput>, n: nat)
    requires n < |inputs|
    ensures Bars(env, b, bar, inputs[..n + 1]) == Bar(env, Bars(env, b, bar, inputs[..n]), bar + n, inputs[n])
  {
    hide Bar;
    assert inputs[..n + 1] == inputs[..n] + [inputs[n]];
    BarsSplit(env, b, bar, inputs[..n], [inputs[n]]);
    BarsOne(env, Bars(env, b, bar, inputs[..n]), bar + n, inputs[n]);
  }

  lemma BarsOne(env: Env, b: Book, bar: int, input: BarInput)
    ensures Bars(env, b, bar, [input]) == Bar(env, b, bar, input)
  {
    hide Bar;
    assert [input][1..] == [];
  }

  lemma FirstWindowBar(env: Env, b: Book, start: nat, lookback: nat, input: BarInput)
    requires InLoop(b, start, lookback) && b.oosStart == Some(start)
    ensures var r := Bar(env, b, start, input); r.oosTrade == Some(|r.trades|)
  {
    hide Settle, Agrees, Compounds;
    SettleKeeps(env, b, start, input);
  }

  /** Book before the window's first bar, and book after it. */
  function BeforeWindow(env: Env, capital: real, start: nat, lookback: nat, inputs: seq<BarInput>): Book
    requires lookback <= start < lookback + |inputs|
  {
    Bars(env, Fresh(capital, Some(start)), lookback, inputs[..start - lookback])
  }

  function AfterFirst(env: Env, capital: real, start: nat, lookback: nat, inputs: seq<BarInput>): Book
    requires lookback <= start < lookback + |inputs|
  {
    Bars(env, Fresh(capital, Some(start)), lookback, inputs[..start - lookback + 1])
  }

  lemma WindowIsNoted(env: Env, capital: real, start: nat, lookback: nat, inputs: seq<BarInput>)
    requires lookback <= start < lookback + |inputs|
    ensures var before, upTo := BeforeWindow(env, capital, start, lookback, inputs),
                                AfterFirst(env, capital, start, lookback, inputs);
            && upTo == Bar(env, before, start, inputs[start - lookback])
            && before.trades <= upTo.trades && upTo.oosTrade == Some(|upTo.trades|)
            && Extends(upTo, Bars(env, Fresh(capital, Some(start)), lookback, inputs))
  {
    hide Bars, Bar;
    var n, f := start - lookback, Fresh(capital, Some(start));
    var before := Bars(env, f, lookback, inputs[..n]);
    BarsLast(env, f, lookback, inputs, n);
    BarsCompound(env, f, lookback, inputs[..n], lookback);
    BarsExtend(env, f, lookback, inputs[..n]);
    FirstWindowBar(env, before, start, lookback, inputs[n]);
    BarExtends(env, before, start, inputs[n]);
    assert inputs == inputs[..n + 1] + inputs[n + 1..];
    BarsSplit(env, f, lookback, inputs[..n + 1], inputs[n + 1..]);
    BarsExtend(env, Bar(env, before, start, inputs[n]), start + 1, inputs[n + 1..]);
  }

  /** The trades reported for the window are those closed after its first bar, although its returns start
      with that bar. They are all the trades closed in the window if and only if its first bar closes
      none. */
  lemma WindowSkipsItsFirstTrades(env: Env, capital: real, start: nat, lookback: nat, inputs: seq<BarInput>,
                                  passes: string -> PassInput)
    requires lookback <= start < env.market.bars && |inputs| == env.market.bars - lookback
    ensures var before, upTo := BeforeWindow(env, capital, start, lookback, inputs),
                                AfterFirst(env, capital, start, lookback, inputs);
            var r := Finish(env, Bars(env, Fresh(capital, Some(start)), lookback, inputs), passes);
            && before.trades <= upTo.trades <= r.trades && start - lookback < |r.daily|
            && MetricReturns(r) == r.daily[start - lookback..]
            && MetricTrades(r) == r.trades[|upTo.trades|..]
            && (MetricTrades(r) == r.trades[|before.trades|..] <==> upTo.trades == before.trades)
  {
    hide Bars, Finish, Bar;
    var b := Bars(env, Fresh(capital, Some(start)), lookback, inputs);
    WindowIsNoted(env, capital, start, lookback, inputs);
    FinishCompounds(env, capital, Some(start), lookback, inputs, passes);
    FinishExtends(env, b, passes);
    ExtendsChain(AfterFirst(env, capital, start, lookback, inputs), b, Finish(env, b, passes));
  }

  // ---- A run that reports too few ----

  const LEAVE := BarInput(false, 0.0, {}, [Signal("A_B", ["A", "B"], Exit, None)])

  /** One pair, entered before the window and closed on its first bar with a profit of 5: the window's
      report has no trade, though its trade list from there on is that trade. */
  lemma WindowCanMissATrade()
    ensures var r := Finish(QuietEnv(), Bars(QuietEnv(), Fresh(1000.0, Some(61)), 60, [ENTRY, LEAVE, QUIET]), NoPass);
            && BeforeWindow(QuietEnv(), 1000.0, 61, 60, [ENTRY, LEAVE, QUIET]).trades == []
            && AfterFirst(QuietEnv(), 1000.0, 61, 60, [ENTRY, LEAVE, QUIET]).trades == [5.0]
            && |r.trades| >= 1 && r.trades[0] == 5.0
            && MetricTrades(r) == r.trades[1..] != r.trades
  {
    hide Bars, Bar, Finish, MetricTrades;
    var env, f, inputs := QuietEnv(), Fresh(1000.0, Some(61)), [ENTRY, LEAVE, QUIET];
    EntryBar(Some(61));
    HeldShape(Some(61));
    BarsLast(env, f, 60, inputs, 0);
    BarsNone(env, f, 60, inputs[..0]);
    var before := Aged(HeldBook(Some(61)), env, 60);
    assert BeforeWindow(env, 1000.0, 61, 60, inputs) == before by { assert inputs[..1] == inputs[..0 + 1]; }
    BarsLast(env, f, 60, inputs, 1);
    LeavingBar(before);
    WindowSkipsItsFirstTrades(env, 1000.0, 61, 60, inputs, NoPass);
  }

  lemma BarsNone(env: Env, b: Book, bar: int, inputs: seq<BarInput>)
    requires inputs == []
    ensures Bars(env, b, bar, inputs) == b
  {}

  lemma LeavingBar(b: Book)
    requires b.open == [Entry("A_B", HELD)] && b.trades == []
    ensures Bar(QuietEnv(), b, 61, LEAVE).trades == [5.0]
  {
    var c := b.(realized := 0.0, active := {});
    assert IndexOf(c.open, "A_B") == 0;
    assert ClosePosition(HELD, QuietEnv().market, QuietEnv().charges, 61).full == 5.0;
    hide CloseWhere, MarkAll, Weakest, ClosePosition;
    assert LEAVE.signals[1..] == [];
    var d := OnSignals(QuietEnv(), c, LEAVE.signals, 61);
    assert d.trades == [5.0];
    NeverTimedOut(SyncActive(d), KeyList(SyncActive(d).open), 61);
  }
}
