/** What the backtest loop of Simulator guarantees over whole runs: the equity ledger with its
    exact overcounts, trade conservation, and how positions are marked. */
module SimulatorLaws {
  import opened Foundations
  import opened PairBook
  import opened Simulator
  import opened Metrics

  // ---- Equity ledger ----

  /** By how much the portfolio value exceeds closed trades, the carried mark and the entry
      costs of open positions. It starts at the initial capital. */
  ghost function Gap(b: Book): real { Net(b) - b.realized }

  lemma {:induction false} AlwaysEmpties(env: Env, b: Book, keys: seq<string>, bar: int, drop: bool)
    requires Distinct(b.open) && keys == KeyList(b.open)
    ensures CloseWhere(env, b, keys, bar, Always, drop).open == []
    decreases |keys|
  {
    if |keys| > 0 {
      assert IndexOf(b.open, keys[0]) == 0;
      assert Take(b.open, 0) == b.open[1..];
      TakeKeys(b.open, 0);
      AlwaysEmpties(env, CloseOne(env, b, 0, bar, drop), keys[1..], bar, drop);
    }
  }

  // ---- What the closing loops close ----

  /** The entries a trigger spares, in book order. */
  function Spared(env: Env, open: seq<Entry>, bar: int, t: Trigger): seq<Entry> {
    if |open| == 0 then [] else
      (if Fires(env, t, open[0].pos, bar) then [] else [open[0]]) + Spared(env, open[1..], bar, t)
  }

  /** A closing loop over a snapshot of the book closes exactly the positions its trigger fires for and
      leaves the others as they were, in order. */
  lemma CloseBookSparesTheRest(env: Env, b: Book, bar: int, t: Trigger, drop: bool)
    requires Distinct(b.open)
    ensures CloseBook(env, b, bar, t, drop).open == Spared(env, b.open, bar, t)
  {
    hide CloseWhere, Spared;
    assert [] + b.open == b.open;
    CloseRest(env, b, [], b.open, bar, t, drop);
    assert [] + Spared(env, b.open, bar, t) == Spared(env, b.open, bar, t);
  }

  lemma {:induction false} CloseRest(env: Env, b: Book, kept: seq<Entry>, rest: seq<Entry>, bar: int,
                                     t: Trigger, drop: bool)
    requires Distinct(b.open) && b.open == kept + rest
    ensures CloseWhere(env, b, KeyList(rest), bar, t, drop).open == kept + Spared(env, rest, bar, t)
    decreases |rest|
  {
    hide Fires, CloseOne, Spared, CloseWhere;
    if |rest| > 0 {
      var n := |kept|;
      assert b.open[n] == rest[0];
      CloseHead(env, b, KeyList(rest), n, bar, t, drop);
      assert KeyList(rest)[1..] == KeyList(rest[1..]);
      SparedFirst(env, rest, bar, t);
      if Fires(env, t, rest[0].pos, bar) {
        ClosedAt(env, b, n, bar, drop);
        assert Take(b.open, n) == kept + rest[1..];
        CloseRest(env, CloseOne(env, b, n, bar, drop), kept, rest[1..], bar, t, drop);
      } else {
        assert b.open == (kept + [rest[0]]) + rest[1..];
        CloseRest(env, b, kept + [rest[0]], rest[1..], bar, t, drop);
        assert kept + [rest[0]] + Spared(env, rest[1..], bar, t) == kept + ([rest[0]] + Spared(env, rest[1..], bar, t));
      }
    } else {
      SparedNone(env, b, rest, bar, t, drop);
    }
  }

  lemma SparedNone(env: Env, b: Book, rest: seq<Entry>, bar: int, t: Trigger, drop: bool)
    requires rest == []
    ensures Spared(env, rest, bar, t) == [] && CloseWhere(env, b, KeyList(rest), bar, t, drop) == b
  {}

  lemma CloseHead(env: Env, b: Book, keys: seq<string>, n: nat, bar: int, t: Trigger, drop: bool)
    requires |keys| > 0 && Distinct(b.open) && n < |b.open| && b.open[n].key == keys[0]
    ensures CloseWhere(env, b, keys, bar, t, drop)
            == CloseWhere(env, if Fires(env, t, b.open[n].pos, bar) then CloseOne(env, b, n, bar, drop) else b,
                          keys[1..], bar, t, drop)
  {
    hide Fires, CloseOne;
    FoundAt(b.open, n);
  }

  lemma SparedFirst(env: Env, open: seq<Entry>, bar: int, t: Trigger)
    requires |open| > 0
    ensures Spared(env, open, bar, t)
            == (if Fires(env, t, open[0].pos, bar) then [] else [open[0]]) + Spared(env, open[1..], bar, t)
  {}

  lemma ClosedAt(env: Env, b: Book, i: nat, bar: int, drop: bool)
    requires i < |b.open| && Distinct(b.open)
    ensures CloseOne(env, b, i, bar, drop).open == Take(b.open, i) && Distinct(Take(b.open, i))
  {
    TakeKeys(b.open, i);
  }

  lemma FoundAt(open: seq<Entry>, n: nat)
    requires Distinct(open) && n < |open|
    ensures IndexOf(open, open[n].key) == n
  {
    assert open[n] in open;
  }

  /** Tier 2 closes exactly the keys the ranking names. */
  lemma TierTwoClosesTheWeakest(env: Env, b: Book, fraction: real, bar: int)
    requires Distinct(b.open) && fraction > 0.0
    ensures var ks := Weakest(b.open, env.market, bar, TierCount(|b.open|, fraction));
            Keys(TierTwo(env, b, fraction, bar).open) == Keys(b.open) - (set k | k in ks)
  {
    CloseKeysGoes(env, b, Weakest(b.open, env.market, bar, TierCount(|b.open|, fraction)), bar);
  }

  lemma {:induction false} CloseKeysGoes(env: Env, b: Book, ks: seq<string>, bar: int)
    requires Distinct(b.open)
    ensures Keys(CloseWhere(env, b, ks, bar, Always, true).open) == Keys(b.open) - (set k | k in ks)
    decreases |ks|
  {
    if |ks| > 0 {
      hide ClosePosition;
      var i := IndexOf(b.open, ks[0]);
      assert ks == [ks[0]] + ks[1..];
      if i < |b.open| {
        TakeKeys(b.open, i);
        CloseKeysGoes(env, CloseOne(env, b, i, bar, true), ks[1..], bar);
      } else {
        CloseKeysGoes(env, b, ks[1..], bar);
      }
    }
  }

  /** A pair entered and exited by signals of one bar fills both times at the next bar's prices: the
      round trip earns nothing and costs exactly its charges and entry cost. */
  lemma SameBarRoundTripEarnsNothing(env: Env, s: Signal, t: Ticket, side: Side, bar: int)
    requires |s.parts| == 2 && bar + 1 < env.market.bars
    ensures var p := Opened(s, t, side, env.market, bar);
            var c := ClosePosition(p, env.market, env.charges, bar);
            c.days == 0 && c.full == -env.charges(p, 0) - t.cost
  {}

  /** Where the strategy forgets a pair together with the book, it keeps no pair the book lacks. */
  lemma {:induction false} DropKeepsActive(env: Env, b: Book, keys: seq<string>, bar: int, t: Trigger)
    requires Distinct(b.open) && b.active <= Keys(b.open)
    ensures var r := CloseWhere(env, b, keys, bar, t, true); r.active <= Keys(r.open)
    decreases |keys|
  {
    if |keys| > 0 {
      var i := IndexOf(b.open, keys[0]);
      if i < |b.open| && Fires(env, t, b.open[i].pos, bar) {
        TakeKeys(b.open, i);
        DropKeepsActive(env, CloseOne(env, b, i, bar, true), keys[1..], bar, t);
      } else {
        DropKeepsActive(env, b, keys[1..], bar, t);
      }
    }
  }

  lemma NothingOpen(m: Market, bar: int)
    ensures OpenCosts([]) == 0.0 && MarkAll([], m, bar) == 0.0
  {}

  /** One bar: the books keep agreeing, the mark carried forward is the mark of what is open,
      a halt leaves nothing open and overcounts the mark it inherited, and after an ordinary bar
      the strategy tracks only open pairs. */
  lemma BarLedger(env: Env, b: Book, bar: int, input: BarInput)
    requires Agrees(b)
    ensures var r := Bar(env, b, bar, input);
            && Agrees(r)
            && Gap(r) == Gap(b) + (if input.halted then b.carried else 0.0)
            && (Gap(r) == Gap(b) <==> !input.halted || b.carried == 0.0)
            && r.carried == MarkAll(r.open, env.market, bar)
            && (input.halted ==> r.open == [] && r.partials == {})
            && (!input.halted ==> r.active <= Keys(r.open))
  {
    hide CloseWhere, BeforeMark, MarkAll;
    SettleKeeps(env, b, bar, input);
    if input.halted {
      NothingOpen(env.market, bar);
      AlwaysEmpties(env, b.(realized := 0.0), KeyList(b.open), bar, false);
    } else {
      ActiveAtMark(env, b, bar, input);
    }
  }

  lemma ActiveAtMark(env: Env, b: Book, bar: int, input: BarInput)
    requires Agrees(b)
    ensures var r := BeforeMark(env, b, bar, input); r.active <= Keys(r.open)
  {
    var b0 := TierTwo(env, b.(realized := 0.0), input.closeFraction, bar);
    var b1 := LossStops(env, b0, bar);
    TierTwoKeeps(env, b.(realized := 0.0), input.closeFraction, bar);
    LossStopsKeep(env, b0, bar);
    SignalsKeep(env, b1.(active := input.active), input.signals, bar);
    var b2 := SyncActive(OnSignals(env, b1.(active := input.active), input.signals, bar));
    DropKeepsActive(env, b2, KeyList(b2.open), bar, TimeStop);
  }

  /** The mark each halt bar inherits, summed over a run. */
  ghost function HaltCarry(env: Env, b: Book, bar: int, inputs: seq<BarInput>): real
    decreases |inputs|
  {
    if |inputs| == 0 then 0.0
    else (if inputs[0].halted then b.carried else 0.0)
         + HaltCarry(env, Bar(env, b, bar, inputs[0]), bar + 1, inputs[1..])
  }

  lemma {:induction false} BarsLedger(env: Env, b: Book, bar: int, inputs: seq<BarInput>)
    requires Agrees(b)
    ensures Agrees(Bars(env, b, bar, inputs))
    ensures Gap(Bars(env, b, bar, inputs)) == Gap(b) + HaltCarry(env, b, bar, inputs)
    decreases |inputs|
  {
    if |inputs| > 0 {
      hide Bar, Gap, Agrees;
      BarLedger(env, b, bar, inputs[0]);
      BarsLedger(env, Bar(env, b, bar, inputs[0]), bar + 1, inputs[1..]);
    }
  }

  lemma FreshAgrees(capital: real, oosStart: Option<nat>)
    ensures Agrees(Fresh(capital, oosStart)) && Gap(Fresh(capital, oosStart)) == capital
  {}

  /** The equity ledger after any number of bars, whatever was entered, stopped, cut or halted.
      The books balance without a correction exactly when the halts inherited no net mark. */
  lemma EquityLedger(env: Env, capital: real, oosStart: Option<nat>, lookback: int, inputs: seq<BarInput>)
    ensures var b := Bars(env, Fresh(capital, oosStart), lookback, inputs);
            var halts := HaltCarry(env, Fresh(capital, oosStart), lookback, inputs);
            && Last(b.values) == capital + Sum(b.trades) + b.carried - OpenCosts(b.open) + halts
            && (Last(b.values) == capital + Sum(b.trades) + b.carried - OpenCosts(b.open) <==> halts == 0.0)
  {
    FreshAgrees(capital, oosStart);
    BarsLedger(env, Fresh(capital, oosStart), lookback, inputs);
  }

  /** P&L already booked that each pass of the trailing block books once more. */
  ghost function PassCarry(env: Env, b: Book, keys: seq<string>, bar: int, inputs: string -> PassInput): real
    decreases |keys|
  {
    if |keys| == 0 then 0.0 else
      var i := IndexOf(b.open, keys[0]);
      if i == |b.open| then PassCarry(env, b, keys[1..], bar, inputs)
      else b.realized + PassCarry(env, Pass(env, b, i, bar, inputs(keys[0])), keys[1..], bar, inputs)
  }

  lemma PassLedger(env: Env, b: Book, i: nat, bar: int, input: PassInput)
    requires Agrees(b) && i < |b.open|
    ensures Agrees(Pass(env, b, i, bar, input))
    ensures Gap(Pass(env, b, i, bar, input)) == Gap(b) + b.realized
  {
    hide PassBeforeMark, MarkAll;
    PassKeeps(env, b, i, bar, input);
  }

  lemma {:induction false} PassesLedger(env: Env, b: Book, keys: seq<string>, bar: int, inputs: string -> PassInput)
    requires Agrees(b)
    ensures Agrees(Passes(env, b, keys, bar, inputs))
    ensures Gap(Passes(env, b, keys, bar, inputs)) == Gap(b) + PassCarry(env, b, keys, bar, inputs)
    decreases |keys|
  {
    if |keys| > 0 {
      hide Pass, Gap, Agrees;
      var i := IndexOf(b.open, keys[0]);
      if i == |b.open| {
        PassesLedger(env, b, keys[1..], bar, inputs);
      } else {
        PassLedger(env, b, i, bar, inputs(keys[0]));
        PassesLedger(env, Pass(env, b, i, bar, inputs(keys[0])), keys[1..], bar, inputs);
      }
    }
  }

  lemma FinalCloseLedger(env: Env, b: Book)
    requires Agrees(b)
    ensures var r := FinalClose(env, b);
            && Agrees(r) && r.open == [] && r.carried == b.carried
            && Last(r.values) - Sum(r.trades) - r.carried == Gap(b)
  {
    hide CloseWhere, Sum, Total, OpenCosts;
    NothingOpen(env.market, env.market.bars - 1);
    CloseKeeps(env, b.(realized := 0.0), KeyList(b.open), env.market.bars - 1, Always, false);
    AlwaysEmpties(env, b.(realized := 0.0), KeyList(b.open), env.market.bars - 1, false);
  }

  lemma FinishLedger(env: Env, b: Book, passes: string -> PassInput)
    requires Agrees(b)
    ensures var r := Finish(env, b, passes);
            && Agrees(r) && r.open == []
            && Last(r.values) - Sum(r.trades)
               == Gap(b) + PassCarry(env, b, KeyList(b.open), env.market.bars - 1, passes)
                  + Passes(env, b, KeyList(b.open), env.market.bars - 1, passes).carried
  {
    hide FinalClose, Passes, PassCarry, Gap, Agrees, Sum;
    PassesLedger(env, b, KeyList(b.open), env.market.bars - 1, passes);
    FinalCloseLedger(env, Passes(env, b, KeyList(b.open), env.market.bars - 1, passes));
  }

  /** The whole run. Every accepted entry was closed exactly once, nothing is left in the book or
      its registries, the per-pair lists hold every trade, and the reported profit differs from the
      trades' P&L by exactly three overcounts: the marks halts inherited, the P&L the trailing
      block booked again, and the mark carried into the final force-close. They agree exactly when
      those cancel. */
  lemma RunLedger(env: Env, capital: real, oosStart: Option<nat>, lookback: int, inputs: seq<BarInput>,
                  passes: string -> PassInput)
    ensures var b := Bars(env, Fresh(capital, oosStart), lookback, inputs);
            var p := Passes(env, b, KeyList(b.open), env.market.bars - 1, passes);
            var r := Finish(env, b, passes);
            var over := HaltCarry(env, Fresh(capital, oosStart), lookback, inputs)
                        + PassCarry(env, b, KeyList(b.open), env.market.bars - 1, passes) + p.carried;
            && Last(r.values) - capital == Sum(r.trades) + over
            && (Last(r.values) - capital == Sum(r.trades) <==> over == 0.0)
            && r.open == [] && r.partials == {} && r.spreads == {} && r.pca == {}
            && r.accepted == |r.durations|
            && Total(r.perPair, Length) == |r.trades| as real
            && Total(r.perPair, Sum) == Sum(r.trades)
  {
    hide Bars, Passes, Finish, HaltCarry, PassCarry, Gap, Total, Sum;
    FreshAgrees(capital, oosStart);
    BarsLedger(env, Fresh(capital, oosStart), lookback, inputs);
    FinishLedger(env, Bars(env, Fresh(capital, oosStart), lookback, inputs), passes);
  }

  /** No bar is halted while a mark is carried into it. */
  ghost predicate NoMarkedHalt(env: Env, b: Book, bar: int, inputs: seq<BarInput>)
    decreases |inputs|
  {
    |inputs| == 0
    || (!(inputs[0].halted && b.carried != 0.0) && NoMarkedHalt(env, Bar(env, b, bar, inputs[0]), bar + 1, inputs[1..]))
  }

  lemma {:induction false} NoMarkedHaltCarriesNothing(env: Env, b: Book, bar: int, inputs: seq<BarInput>)
    requires Agrees(b) && (b.open == [] ==> b.carried == 0.0) && NoMarkedHalt(env, b, bar, inputs)
    ensures HaltCarry(env, b, bar, inputs) == 0.0
    ensures var r := Bars(env, b, bar, inputs); r.open == [] ==> r.carried == 0.0
    decreases |inputs|
  {
    if |inputs| > 0 {
      hide Bar, Agrees, Gap;
      var c := Bar(env, b, bar, inputs[0]);
      BarLedger(env, b, bar, inputs[0]);
      NoMarkedHaltCarriesNothing(env, c, bar + 1, inputs[1..]);
    }
  }

  /** What is known before the end suffices: if no bar was halted with a mark carried into it, and the
      last bar leaves the book empty, reported profit is exactly the trades' P&L. */
  lemma QuietRunsAgree(env: Env, capital: real, oosStart: Option<nat>, lookback: int, inputs: seq<BarInput>,
                       passes: string -> PassInput)
    requires NoMarkedHalt(env, Fresh(capital, oosStart), lookback, inputs)
    requires Bars(env, Fresh(capital, oosStart), lookback, inputs).open == []
    ensures var r := Finish(env, Bars(env, Fresh(capital, oosStart), lookback, inputs), passes);
            Last(r.values) - capital == Sum(r.trades)
  {
    hide Bars, HaltCarry, NoMarkedHalt, Sum, Agrees;
    FreshAgrees(capital, oosStart);
    NoMarkedHaltCarriesNothing(env, Fresh(capital, oosStart), lookback, inputs);
    RunLedger(env, capital, oosStart, lookback, inputs, passes);
  }

  /** Taking part of a profit at one bar leaves the leg notionals whole, so a close at a later bar realises
      that part once more: the two exceed what the parts are worth by the fraction taken of the later
      P&L, and are right only when that is nothing. */
  lemma PartIsRealisedTwice(env: Env, pos: Position, bar: int, f: real, later: int)
    ensures var taken := PartPnl(env, pos, bar, f) + PartCost(env, pos, f);
            var closed := Unrealized(PartLeft(pos, f), env.market, later);
            var first, second := Unrealized(pos, env.market, bar), Unrealized(pos, env.market, later);
            && taken + closed == f * first + (1.0 - f) * second + f * second
            && (taken + closed == f * first + (1.0 - f) * second <==> f == 0.0 || second == 0.0)
  {
    var first, second := Unrealized(pos, env.market, bar), Unrealized(pos, env.market, later);
    UnrealizedOfPart(pos, env.market, later, f);
    hide Unrealized, PartLeft, PartCost, PartOf;
    SplitFactor(first, second, f);
    NoDivisors(f, second);
  }

  /** A partial profit shrinks the mark and not the unrealised P&L. So where a position was marked right,
      it still is only if nothing was taken or its mark was nothing; with equal legs, only if nothing was
      taken, there is no notional or the legs' returns cancel. */
  lemma PartUnsettlesTheMark(pos: Position, m: Market, bar: int, f: real)
    ensures var left := PartLeft(pos, f);
            Unrealized(left, m, bar) - Mark(left, m, bar)
            == Unrealized(pos, m, bar) - Mark(pos, m, bar) + f * Mark(pos, m, bar)
    ensures Mark(pos, m, bar) == Unrealized(pos, m, bar) ==>
              (Mark(PartLeft(pos, f), m, bar) == Unrealized(PartLeft(pos, f), m, bar)
               <==> f == 0.0 || Mark(pos, m, bar) == 0.0)
    ensures pos.notional1 == pos.notional2 == pos.notional / 2.0 ==>
              (Mark(PartLeft(pos, f), m, bar) == Unrealized(PartLeft(pos, f), m, bar)
               <==> f == 0.0 || pos.notional == 0.0 || Return1(pos, m, bar) == -Return2(pos, m, bar))
  {
    var h, sum := pos.notional / 2.0, Return1(pos, m, bar) + Return2(pos, m, bar);
    UnrealizedOfPart(pos, m, bar, f);
    MarkOfPart(pos, m, bar, f);
    if pos.notional1 == pos.notional2 == h { EqualLegs(pos, m, bar); }
    hide Mark, Unrealized, PartLeft, Return1, Return2;
    NoDivisors(f, Mark(pos, m, bar));
    NoDivisors(h, sum);
  }

  lemma UnrealizedOfPart(pos: Position, m: Market, bar: int, f: real)
    ensures var left := PartLeft(pos, f);
            && Return1(left, m, bar) == Return1(pos, m, bar) && Return2(left, m, bar) == Return2(pos, m, bar)
            && Unrealized(left, m, bar) == Unrealized(pos, m, bar)
  {}

  lemma MarkOfPart(pos: Position, m: Market, bar: int, f: real)
    ensures Mark(PartLeft(pos, f), m, bar) == Mark(pos, m, bar) - f * Mark(pos, m, bar)
    ensures Mark(pos, m, bar) == pos.notional / 2.0 * (Return1(pos, m, bar) + Return2(pos, m, bar))
  {
    UnrealizedOfPart(pos, m, bar, f);
    hide Unrealized, Return1, Return2;
    Shrunk(pos.notional, pos.notional / 2.0, f);
    ShrunkMark(pos.notional / 2.0, f, Return1(pos, m, bar), Return2(pos, m, bar));
  }

  lemma EqualLegs(pos: Position, m: Market, bar: int)
    requires pos.notional1 == pos.notional2 == pos.notional / 2.0
    ensures Unrealized(pos, m, bar) == Mark(pos, m, bar)
  {}

  lemma Shrunk(n: real, h: real, f: real)
    requires h == n / 2.0
    ensures n * (1.0 - f) / 2.0 == h * (1.0 - f)
  {}

  lemma ShrunkMark(h: real, f: real, r1: real, r2: real)
    ensures h * (1.0 - f) * r1 + h * (1.0 - f) * r2 == (h * r1 + h * r2) - f * (h * r1 + h * r2)
    ensures h * r1 + h * r2 == h * (r1 + r2)
  {}

  lemma SplitFactor(u: real, v: real, f: real)
    ensures PartOf(u, f) + v == f * u + (1.0 - f) * v + f * v
  {}

  /** The legs of every open position make up its notional. */
  ghost predicate WholeLegs(b: Book) {
    forall e :: e in b.open ==> e.pos.notional1 + e.pos.notional2 == e.pos.notional
  }

  /** Every ticket's legs make up its notional, as the beta-neutral split of an entry does. */
  ghost predicate WholeTickets(ss: seq<Signal>) {
    forall s :: s in ss && s.ticket.Some? ==>
      s.ticket.value.notional1 + s.ticket.value.notional2 == s.ticket.value.notional
  }

  lemma {:induction false} CloseKeepsLegs(env: Env, b: Book, keys: seq<string>, bar: int, t: Trigger, drop: bool)
    requires WholeLegs(b)
    ensures WholeLegs(CloseWhere(env, b, keys, bar, t, drop))
    decreases |keys|
  {
    if |keys| > 0 {
      hide ClosePosition, Fires;
      var i := IndexOf(b.open, keys[0]);
      if i < |b.open| && Fires(env, t, b.open[i].pos, bar) {
        CloseKeepsLegs(env, CloseOne(env, b, i, bar, drop), keys[1..], bar, t, drop);
      } else {
        CloseKeepsLegs(env, b, keys[1..], bar, t, drop);
      }
    }
  }

  lemma {:induction false} SignalsKeepLegs(env: Env, b: Book, ss: seq<Signal>, bar: int)
    requires WholeLegs(b) && WholeTickets(ss)
    ensures WholeLegs(OnSignals(env, b, ss, bar))
    decreases |ss|
  {
    if |ss| > 0 {
      hide ClosePosition;
      assert ss[0] in ss && forall s :: s in ss[1..] ==> s in ss;
      SignalsKeepLegs(env, OnSignal(env, b, ss[0], bar), ss[1..], bar);
    }
  }

  lemma BarKeepsLegs(env: Env, b: Book, bar: int, input: BarInput)
    requires WholeLegs(b) && WholeTickets(input.signals)
    ensures WholeLegs(Bar(env, b, bar, input))
  {
    hide CloseWhere, OnSignals, Weakest, MarkAll, KeyList;
    var b0 := b.(realized := 0.0);
    if input.halted {
      CloseKeepsLegs(env, b0, KeyList(b0.open), bar, Always, false);
    } else {
      var ks := Weakest(b0.open, env.market, bar, TierCount(|b0.open|, input.closeFraction));
      CloseKeepsLegs(env, b0, ks, bar, Always, true);
      var b1 := TierTwo(env, b0, input.closeFraction, bar);
      CloseKeepsLegs(env, b1, KeyList(b1.open), bar, LossStop, true);
      var b2 := LossStops(env, b1, bar);
      SignalsKeepLegs(env, b2.(active := input.active), input.signals, bar);
      var b3 := SyncActive(OnSignals(env, b2.(active := input.active), input.signals, bar));
      CloseKeepsLegs(env, b3, KeyList(b3.open), bar, TimeStop, true);
    }
  }

  lemma {:induction false} BarsKeepLegs(env: Env, b: Book, bar: int, inputs: seq<BarInput>)
    requires WholeLegs(b) && forall i :: 0 <= i < |inputs| ==> WholeTickets(inputs[i].signals)
    ensures WholeLegs(Bars(env, b, bar, inputs))
    decreases |inputs|
  {
    if |inputs| > 0 {
      hide Bar, WholeLegs, WholeTickets;
      BarKeepsLegs(env, b, bar, inputs[0]);
      BarsKeepLegs(env, Bar(env, b, bar, inputs[0]), bar + 1, inputs[1..]);
    }
  }

  /** At every bar of every run with beta-neutral entries, a position still open is marked at what closing
      it would realise if and only if its legs are equal or have had the same return. */
  lemma OpenPositionsAreMarkedRight(env: Env, capital: real, oosStart: Option<nat>, lookback: int,
                                    inputs: seq<BarInput>, e: Entry, bar: int)
    requires forall i :: 0 <= i < |inputs| ==> WholeTickets(inputs[i].signals)
    requires e in Bars(env, Fresh(capital, oosStart), lookback, inputs).open
    ensures Mark(e.pos, env.market, bar) == Unrealized(e.pos, env.market, bar)
            <==> e.pos.notional1 == e.pos.notional2
                 || Return1(e.pos, env.market, bar) == Return2(e.pos, env.market, bar)
  {
    hide Bars, Bar, Mark, Unrealized;
    BarsKeepLegs(env, Fresh(capital, oosStart), lookback, inputs);
    MarkAgreesWithUnrealized(e.pos, env.market, bar);
  }

  // ---- The overcount happens ----

  /** "A" is worth 100 until bar 61 and 110 from bar 62 on; everything else stays at 100. */
  function RisingPrice(s: string, bar: int): real { if s == "A" && bar >= 62 then 110.0 else 100.0 }

  function QuietEnv(): Env {
    Env(Market(RisingPrice, 63, Listed), Free, FreePart, Patient, 0.0, 0.0, 0.0)
  }

  predicate Listed(s: string) { true }

  function Free(p: Position, days: nat): real { 0.0 }

  function FreePart(p: Position, n: real): real { 0.0 }

  predicate Patient(held: int, halfLife: Option<int>) { false }

  function NoProfit(key: string): TakeProfit { Hold }

  function NoPass(key: string): PassInput { PassInput(false, NoProfit) }

  const QUIET := BarInput(false, 0.0, {}, [])

  const SIGNAL := Signal("A_B", ["A", "B"], Enter(Long), Some(Ticket(100.0, 50.0, 50.0, 0.0, None, 0.1, 0.0, false)))

  const ENTRY := BarInput(false, 0.0, {}, [SIGNAL])

  lemma {:induction false} NeverTimedOut(b: Book, keys: seq<string>, bar: int)
    ensures CloseWhere(QuietEnv(), b, keys, bar, TimeStop, true) == b
    decreases |keys|
  {
    if |keys| > 0 { NeverTimedOut(b, keys[1..], bar); }
  }

  function Aged(b: Book, env: Env, bar: int): Book {
    var mark := MarkAll(b.open, env.market, bar);
    Append(b.(realized := 0.0, active := {}, carried := mark), mark - b.carried, bar)
  }

  lemma QuietBar(b: Book, bar: int)
    ensures Bar(QuietEnv(), b, bar, QUIET) == Aged(b, QuietEnv(), bar)
  {
    hide CloseWhere, MarkAll, Append, Weakest;
    var c := b.(realized := 0.0, active := {});
    NeverTimedOut(c, KeyList(c.open), bar);
    assert SyncActive(c) == c;
  }

  /** The position ENTRY opens, and the book holding it. */
  const HELD := Position(Long, "A", "B", 100.0, 100.0, 61, 100.0, 50.0, 50.0, 0.0, None, 0.0, 0.1, 0.0)

  function HeldBook(start: Option<nat>): Book { EnterPair(Fresh(1000.0, start), "A_B", HELD, false) }

  lemma EntryBar(start: Option<nat>)
    ensures Bar(QuietEnv(), Fresh(1000.0, start), 60, ENTRY) == Aged(HeldBook(start), QuietEnv(), 60)
  {
    var env, f := QuietEnv(), Fresh(1000.0, start);
    assert OnSignal(env, f, SIGNAL, 60) == HeldBook(start) by {
      hide EnterPair;
      assert Opened(SIGNAL, SIGNAL.ticket.value, Long, env.market, 60) == HELD;
    }
    hide MarkAll, Append, Weakest, CloseWhere, OnSignal, EnterPair, IndexOf;
    assert ENTRY.signals[1..] == [];
    assert OnSignals(env, f, ENTRY.signals, 60) == HeldBook(start);
    HeldShape(start);
    NeverTimedOut(HeldBook(start), KeyList(HeldBook(start).open), 60);
  }

  lemma HeldShape(start: Option<nat>)
    ensures HeldBook(start) == Fresh(1000.0, start).(open := [Entry("A_B", HELD)], accepted := 1, partials := {"A_B"})
    ensures SyncActive(HeldBook(start)) == HeldBook(start)
  {}

  lemma QuietPass(b: Book)
    requires b.open == [Entry("A_B", HELD)]
    ensures var r := Pass(QuietEnv(), b, 0, 62, NoPass("A_B"));
            r.open == b.open && r.carried == MarkAll(b.open, QuietEnv().market, 62)
  {
    hide MarkAll, CloseWhere, Weakest, IndexOf;
    var keys := KeyList(b.open);
    assert keys[1..] == [];
    assert TakeProfits(QuietEnv(), b, keys, 62, NoProfit) == b;
    NeverTimedOut(b, keys, 62);
  }

  /** One long pair, up 5 at the end of the frame, no cost and no halt: the reported profit exceeds
      the trades' P&L by those 5, because the mark already held them when the close added them. */
  lemma ReportedProfitCanExceedTrades()
    ensures var b := Bars(QuietEnv(), Fresh(1000.0, None), 60, [ENTRY, QUIET, QUIET]);
            Last(Finish(QuietEnv(), b, NoPass).values) - 1000.0 == Sum(Finish(QuietEnv(), b, NoPass).trades) + 5.0
  {
    hide Finish, Bars, Passes, PassCarry, MarkAll, HaltCarry, Pass;
    var env, f, inputs := QuietEnv(), Fresh(1000.0, None), [ENTRY, QUIET, QUIET];
    ThreeBars();
    var b := Bars(env, f, 60, inputs);
    RunLedger(env, 1000.0, None, 60, inputs, NoPass);
    MarkedFive();
    QuietPass(b);
    OnePass(b);
  }

  lemma ThreeBars()
    ensures var b := Bars(QuietEnv(), Fresh(1000.0, None), 60, [ENTRY, QUIET, QUIET]);
            b.open == [Entry("A_B", HELD)] && b.realized == 0.0
    ensures HaltCarry(QuietEnv(), Fresh(1000.0, None), 60, [ENTRY, QUIET, QUIET]) == 0.0
  {
    hide Bar, MarkAll, Append, Aged;
    var env, f := QuietEnv(), Fresh(1000.0, None);
    EntryBar(None);
    HeldShape(None);
    AgedShape(HeldBook(None), 60);
    var b1 := Bar(env, f, 60, ENTRY);
    QuietBar(b1, 61);
    AgedShape(b1, 61);
    var b2 := Bar(env, b1, 61, QUIET);
    QuietBar(b2, 62);
    AgedShape(b2, 62);
    BarsCons(env, b2, 62, QUIET, []);
    BarsCons(env, b1, 61, QUIET, [QUIET]);
    BarsCons(env, f, 60, ENTRY, [QUIET, QUIET]);
    assert [QUIET] + [] == [QUIET] && [QUIET] + [QUIET] == [QUIET, QUIET];
    assert [ENTRY] + [QUIET, QUIET] == [ENTRY, QUIET, QUIET];
  }

  lemma BarsCons(env: Env, b: Book, bar: int, input: BarInput, rest: seq<BarInput>)
    ensures Bars(env, b, bar, [input] + rest) == Bars(env, Bar(env, b, bar, input), bar + 1, rest)
    ensures HaltCarry(env, b, bar, [input] + rest)
            == (if input.halted then b.carried else 0.0) + HaltCarry(env, Bar(env, b, bar, input), bar + 1, rest)
  {
    hide Bar;
    assert ([input] + rest)[1..] == rest;
  }

  lemma AgedShape(b: Book, bar: int)
    ensures var r := Aged(b, QuietEnv(), bar); r.open == b.open && r.realized == 0.0
  {}

  lemma OnePass(b: Book)
    requires b.open == [Entry("A_B", HELD)]
    ensures Passes(QuietEnv(), b, KeyList(b.open), 62, NoPass) == Pass(QuietEnv(), b, 0, 62, NoPass("A_B"))
    ensures PassCarry(QuietEnv(), b, KeyList(b.open), 62, NoPass) == b.realized
  {
    hide Pass;
    var keys := KeyList(b.open);
    assert keys == ["A_B"] && keys[1..] == [];
    assert IndexOf(b.open, "A_B") == 0;
  }

  lemma MarkedFive()
    ensures MarkAll([Entry("A_B", HELD)], QuietEnv().market, 62) == 5.0
  {
    assert [Entry("A_B", HELD)][..0] == [];
    assert Mark(HELD, QuietEnv().market, 62) == 5.0;
  }
}
