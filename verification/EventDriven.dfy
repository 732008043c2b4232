/** The event-driven backtester (backtests/event_driven.py): fills against a simulated book, the bar
    loop with its cost accounting, and the absence of look-ahead.

    The strategy is any deterministic object with a memory; square root, holding and funding costs are
    any functions. */
module EventDriven {
  import opened Foundations
  import opened Metrics

  type Symbol = string

  /** One bar: the traded prices, the volumes where a volume table has them, and the ex-date flag. */
  datatype Row = Row(prices: map<Symbol, real>, volumes: map<Symbol, real>, exdate: bool)

  datatype Side = Long | Short | Exit | Other

  datatype Signal = Signal(pair: string, side: Side)

  type Rate = r: real | r >= 0.0

  datatype World<!M> = World(
    initial: real, lookback: nat, allocationPct: real,
    bookDepth: real, maxRate: Rate, impactCoeff: real, gapMultiplier: real, takerBps: real,
    root: real -> real,
    holding: (real, nat) -> real, funding: (real, nat) -> real,
    overZero: real -> real,                            // what dividing by zero yields
    memory: M, decide: (M, seq<Row>) -> (seq<Signal>, M))

  // ---- One fill ----

  datatype Market = Market(close: real, prevClose: Option<real>, volume: real)

  datatype Fill = Fill(filled: real, price: real, slippageBps: real, partial: bool, cost: real, impactBps: real)

  function GapPct(m: Market): real {
    if m.prevClose == None || m.prevClose.value == 0.0 then 0.0
    else Abs(m.close - m.prevClose.value) / m.prevClose.value
  }

  /** Order size as a share of the bar's volume; 1, the worst case, when there is none to speak of. */
  function Participation(notional: real, price: real, volume: real): real {
    if price <= 0.0 || volume <= 0.0 then 1.0
    else if volume / price <= 0.0 then 1.0
    else (notional / price) / (volume / price)
  }

  function Filled(notional: real, rate: real, cap: Rate): real {
    if rate > cap then notional * (cap / rate) else notional
  }

  function Raised(price: real, share: real): real { price * (1.0 + share) }

  function Lowered(price: real, share: real): real { price * (1.0 - share) }

  function HalfSpread<M>(w: World<M>, mid: real): real { mid * (w.bookDepth / 2.0) }

  function ImpactBps<M>(w: World<M>, rate: real): real { w.impactCoeff * w.root(rate) * 10000.0 }

  function GapExtra<M>(w: World<M>, gap: real): real { if gap > 0.01 then gap * w.gapMultiplier else 0.0 }

  /** The price after half the spread, market impact and gap slippage, all against the order. */
  function FillPrice<M>(w: World<M>, buy: bool, mid: real, rate: real, gap: real): real {
    if buy then Raised(Raised(mid + HalfSpread(w, mid), ImpactBps(w, rate) / 10000.0), GapExtra(w, gap))
    else Lowered(Lowered(mid - HalfSpread(w, mid), ImpactBps(w, rate) / 10000.0), GapExtra(w, gap))
  }

  function SimulateFill<M>(w: World<M>, buy: bool, notional: real, m: Market): Fill {
    var rate := Participation(notional, m.close, m.volume);
    var filled := Filled(notional, rate, w.maxRate);
    var price := FillPrice(w, buy, m.close, rate, GapPct(m));
    var slippage := if m.close > 0.0 then Abs(price - m.close) / m.close * 10000.0 else 0.0;
    Fill(filled, price, slippage, rate > w.maxRate,
         filled * (w.takerBps / 10000.0) + filled * (slippage / 10000.0),
         ImpactBps(w, rate))
  }

  lemma ParticipationIsShare(notional: real, price: real, volume: real)
    requires price > 0.0 && volume > 0.0
    ensures volume / price > 0.0 && Participation(notional, price, volume) == notional / volume
  {
    var n, v := notional / price, volume / price;
    assert v * price == volume;
    ProductOrder(price, v, 0.0);
    var r := n / v;
    assert r * v == n && n * price == notional && v * price == volume;
    assert r * volume == notional by { assert r * (v * price) == (r * v) * price; }
    Divided(notional, volume, r);
  }

  lemma Divided(a: real, b: real, r: real)
    requires b > 0.0 && r * b == a
    ensures a / b == r
  {
    assert (a / b) * b == a;
    ProductOrder(b, a / b, r);
  }

  /** What a fill pays for: its price is the close moved by half the book's spread, by the impact coefficient
      times the root of the participation and, after a gap of more than one percent, by the gap times its
      multiplier, each up for a buyer and down for a seller. Its cost is the fee on what is filled and the
      distance of the price from the close. */
  lemma FillIs<M>(w: World<M>, buy: bool, notional: real, m: Market)
    ensures var f, rate := SimulateFill(w, buy, notional, m), Participation(notional, m.close, m.volume);
            var gap := if m.prevClose.Some? && m.prevClose.value != 0.0
                       then Abs(m.close - m.prevClose.value) / m.prevClose.value else 0.0;
            var extra := if gap > 0.01 then gap * w.gapMultiplier else 0.0;
            var impact := w.impactCoeff * w.root(rate);
            && f.price == (if buy then m.close * (1.0 + w.bookDepth / 2.0) * (1.0 + impact) * (1.0 + extra)
                           else m.close * (1.0 - w.bookDepth / 2.0) * (1.0 - impact) * (1.0 - extra))
            && f.impactBps == impact * 10000.0
            && (m.close > 0.0 ==>
                  f.cost == f.filled * w.takerBps / 10000.0 + f.filled * (Abs(f.price - m.close) / m.close))
            && (m.close <= 0.0 ==> f.cost == f.filled * w.takerBps / 10000.0)
  {
    PriceIs(w, buy, m.close, Participation(notional, m.close, m.volume), GapPct(m));
    CostIs(w, buy, notional, m);
    hide Participation, Filled, FillPrice, Abs;
  }

  lemma PriceIs<M>(w: World<M>, buy: bool, mid: real, rate: real, gap: real)
    ensures var extra := if gap > 0.01 then gap * w.gapMultiplier else 0.0;
            var impact := w.impactCoeff * w.root(rate);
            FillPrice(w, buy, mid, rate, gap)
            == (if buy then mid * (1.0 + w.bookDepth / 2.0) * (1.0 + impact) * (1.0 + extra)
                else mid * (1.0 - w.bookDepth / 2.0) * (1.0 - impact) * (1.0 - extra))
    ensures ImpactBps(w, rate) == w.impactCoeff * w.root(rate) * 10000.0
  {
    SpreadFactor(mid, w.bookDepth / 2.0);
    assert ImpactBps(w, rate) / 10000.0 == w.impactCoeff * w.root(rate);
    assert HalfSpread(w, mid) == mid * (w.bookDepth / 2.0);
    hide HalfSpread, ImpactBps;
  }

  lemma SpreadFactor(mid: real, half: real)
    ensures mid + mid * half == mid * (1.0 + half) && mid - mid * half == mid * (1.0 - half)
  {}

  lemma CostIs<M>(w: World<M>, buy: bool, notional: real, m: Market)
    ensures var f := SimulateFill(w, buy, notional, m);
            && (m.close > 0.0 ==>
                  f.cost == f.filled * w.takerBps / 10000.0 + f.filled * (Abs(f.price - m.close) / m.close))
            && (m.close <= 0.0 ==> f.cost == f.filled * w.takerBps / 10000.0)
  {
    hide Participation, Filled, FillPrice, GapPct, ImpactBps, Abs;
    var f := SimulateFill(w, buy, notional, m);
    Rebased(f.filled, w.takerBps);
    if m.close > 0.0 { Rescaled(f.filled, Abs(f.price - m.close) / m.close); }
    assert f.filled * (0.0 / 10000.0) == 0.0;
  }

  lemma Rebased(x: real, bps: real)
    ensures x * (bps / 10000.0) == x * bps / 10000.0
  {}

  lemma Rescaled(x: real, share: real)
    ensures x * (share * 10000.0 / 10000.0) == x * share
  {}

  /** With a price and a volume, what is filled is the smaller of the order and the permitted share of
      the volume, and the fill is marked partial exactly when the order is larger. */
  lemma FilledIsCapped(notional: real, price: real, volume: real, cap: Rate)
    requires price > 0.0 && volume > 0.0
    ensures Filled(notional, Participation(notional, price, volume), cap) == Min(notional, cap * volume)
    ensures Participation(notional, price, volume) > cap <==> notional > cap * volume
  {
    ParticipationIsShare(notional, price, volume);
    var r := notional / volume;
    assert r * volume == notional;
    ProductOrder(volume, r, cap);
    ProductOrder(volume, cap, r);
    if r > cap {
      var k := cap / r;
      assert k * r == cap;
      assert notional * k == cap * volume by { assert (r * volume) * k == (k * r) * volume; }
    }
  }

  /** A positive order never fills beyond the permitted share of the volume, except where price or
      volume is missing: then it is measured against nothing and the bound holds only by chance. */
  lemma FillWithinVolume(notional: real, price: real, volume: real, cap: Rate)
    requires notional > 0.0 && cap > 0.0
    ensures Filled(notional, Participation(notional, price, volume), cap) <= cap * volume
            <==> volume > 0.0 && (price > 0.0 || notional * Min(1.0, cap) <= cap * volume)
  {
    if price > 0.0 && volume > 0.0 {
      FilledIsCapped(notional, price, volume, cap);
    } else {
      assert Participation(notional, price, volume) == 1.0;
      var f := Filled(notional, 1.0, cap);
      assert cap / 1.0 == cap;
      assert f == notional * Min(1.0, cap);
      assert f > 0.0 by { if cap < 1.0 { assert notional * cap > 0.0; } }
      if volume <= 0.0 { assert cap * volume <= 0.0; }
    }
  }

  /** Coefficients that make execution worse, not better; a seller's two discounts are at most all of
      the price. */
  ghost predicate Adverse<M>(w: World<M>, notional: real, m: Market, buy: bool) {
    var impact := ImpactBps(w, Participation(notional, m.close, m.volume));
    && m.close > 0.0 && w.bookDepth >= 0.0 && w.takerBps >= 0.0
    && impact >= 0.0 && w.gapMultiplier >= 0.0
    && (!buy ==> impact <= 10000.0 && GapPct(m) * w.gapMultiplier <= 1.0)
  }

  lemma RaisedIsMore(x: real, k: real)
    requires x >= 0.0 && k >= 0.0
    ensures Raised(x, k) >= x
  {}

  lemma LoweredIsLess(x: real, k: real, limit: real)
    requires x <= limit && 0.0 <= k <= 1.0 && limit >= 0.0
    ensures Lowered(x, k) <= limit
  {
    var rest := 1.0 - k;
    assert Lowered(x, k) == x * rest == x - x * k;
    if x >= 0.0 {
      NotNegative(x, k);
    } else {
      NotNegative(-x, rest);
      assert (-x) * rest == -(x * rest);
    }
  }

  lemma PriceIsAdverse<M>(w: World<M>, buy: bool, notional: real, m: Market)
    requires Adverse(w, notional, m, buy)
    ensures var price := FillPrice(w, buy, m.close, Participation(notional, m.close, m.volume), GapPct(m));
            if buy then price >= m.close else price <= m.close
  {
    hide Participation, GapPct, HalfSpread, ImpactBps, Raised, Lowered;
    var rate, extra := Participation(notional, m.close, m.volume), GapExtra(w, GapPct(m));
    var impact := ImpactBps(w, rate) / 10000.0;
    SpreadIsPositive(w, m.close);
    ExtraIsPositive(GapPct(m), w.gapMultiplier);
    if buy {
      RaisedIsMore(m.close + HalfSpread(w, m.close), impact);
      RaisedIsMore(Raised(m.close + HalfSpread(w, m.close), impact), extra);
    } else {
      LoweredIsLess(m.close - HalfSpread(w, m.close), impact, m.close);
      LoweredIsLess(Lowered(m.close - HalfSpread(w, m.close), impact), extra, m.close);
    }
  }

  lemma SpreadIsPositive<M>(w: World<M>, mid: real)
    requires mid > 0.0 && w.bookDepth >= 0.0
    ensures HalfSpread(w, mid) >= 0.0
  {}

  lemma ExtraIsPositive(gap: real, multiplier: real)
    requires multiplier >= 0.0
    ensures gap > 0.01 ==> gap * multiplier >= 0.0
  {}

  /** A buyer never pays less than the close and a seller never gets more; execution never pays. */
  lemma FillsAreAdverse<M>(w: World<M>, buy: bool, notional: real, m: Market)
    requires notional >= 0.0 && Adverse(w, notional, m, buy)
    ensures var f := SimulateFill(w, buy, notional, m);
            && (if buy then f.price >= m.close else f.price <= m.close)
            && 0.0 <= f.filled <= notional && f.cost >= 0.0
  {
    PriceIsAdverse(w, buy, notional, m);
    hide Participation, GapPct, FillPrice, Filled;
    FilledIsPart(notional, Participation(notional, m.close, m.volume), w.maxRate);
    var f := SimulateFill(w, buy, notional, m);
    Charged(f.filled, w.takerBps);
    SlippageIsDistance(f.price, m.close);
    Charged(f.filled, f.slippageBps);
  }

  lemma Charged(filled: real, bps: real)
    requires filled >= 0.0 && bps >= 0.0
    ensures filled * (bps / 10000.0) >= 0.0
  {}

  lemma SlippageIsDistance(price: real, close: real)
    requires close > 0.0
    ensures Abs(price - close) / close * 10000.0 >= 0.0
  {}

  lemma FilledIsPart(notional: real, rate: real, cap: Rate)
    requires notional >= 0.0
    ensures 0.0 <= Filled(notional, rate, cap) <= notional
  {
    if rate > cap {
      var k := cap / rate;
      assert k * rate == cap;
      ProductOrder(rate, k, 1.0);
      ProductOrder(rate, 0.0, k);
      assert 0.0 <= k <= 1.0;
      assert notional * k >= 0.0 && notional * (1.0 - k) >= 0.0;
      assert notional * (1.0 - k) == notional - notional * k;
    }
  }

  // ---- Signals ----

  datatype Position = Position(
    side: Side, bar: nat, entry1: real, entry2: real, notional: real, entryCost: real, partial: bool)

  /** `gross` lists the P&L of closed trades before any cost; the loop itself only keeps the rest. */
  datatype Backtest = Backtest(
    capital: real, positions: map<string, Position>, values: seq<real>, daily: seq<real>,
    trades: seq<real>, costs: real, gross: seq<real>)

  /** The text cut at every underscore. */
  function Split(s: string): (parts: seq<string>)
    ensures |parts| > 0
  {
    if s == "" then [""] else
      var rest := Split(s[1..]);
      if s[0] == '_' then [""] + rest else [[s[0]] + rest[0]] + rest[1..]
  }

  function Over<M>(w: World<M>, a: real, b: real): real { if b == 0.0 then w.overZero(a) else a / b }

  function MarketState(row: Row, prev: Option<Row>, symbol: Symbol): Option<Market> {
    if symbol !in row.prices then None
    else Some(Market(row.prices[symbol],
                     if prev.Some? && symbol in prev.value.prices then Some(prev.value.prices[symbol]) else None,
                     if symbol in row.volumes then row.volumes[symbol] else 1000000000.0))
  }

  /** What an entry may spend on each leg. */
  function Allocation<M>(w: World<M>, b: Backtest): real { b.capital * (w.allocationPct / 100.0) }

  /** Entering long buys the first leg and sells the second, short the other way round; a pair of one
      symbol with itself (`same`) always notes the buy as its first leg. */
  function Enter<M>(w: World<M>, b: Backtest, bar: nat, sig: Signal, m1: Market, m2: Market, same: bool): Backtest {
    var alloc := Allocation(w, b);
    var long := sig.side == Long || same;
    var f1, f2 := SimulateFill(w, long, alloc, m1), SimulateFill(w, !long, alloc, m2);
    var cost := f1.cost + f2.cost;
    b.(costs := b.costs + cost,
       positions := b.positions[sig.pair := Position(sig.side, bar, f1.price, f2.price, Min(f1.filled, f2.filled), cost,
                                                     f1.partial || f2.partial)])
  }

  /** P&L before costs: the mean relative gain of the two legs at the closes, on the filled notional. */
  function GrossPnl<M>(w: World<M>, p: Position, m1: Market, m2: Market): real {
    var rise1 := Over(w, m1.close - p.entry1, p.entry1);
    var fall2 := Over(w, p.entry2 - m2.close, p.entry2);
    var fall1 := Over(w, p.entry1 - m1.close, p.entry1);
    var rise2 := Over(w, m2.close - p.entry2, p.entry2);
    (if p.side == Long then rise1 + fall2 else fall1 + rise2) / 2.0 * p.notional
  }

  // ---- What a trade earns ----

  /** A position left exactly at its entry prices has earned nothing before costs. */
  lemma GrossAtEntryIsNothing<M>(w: World<M>, p: Position, m1: Market, m2: Market)
    requires p.entry1 != 0.0 && p.entry2 != 0.0 && m1.close == p.entry1 && m2.close == p.entry2
    ensures GrossPnl(w, p, m1, m2) == 0.0
  {
    RiseMoves(w, p.entry1, m1.close, m1.close);
    RiseMoves(w, p.entry2, m2.close, m2.close);
    hide Over;
    assert (0.0 + 0.0) / 2.0 * p.notional == 0.0;
  }

  /** Moving only the first close moves the P&L by half the notional for the part of the entry price it moved:
      with it for a long pair, against it for a short one. */
  lemma GrossMovesWithFirstLeg<M>(w: World<M>, p: Position, m1: Market, m2: Market, x: real)
    requires p.entry1 != 0.0
    ensures (GrossPnl(w, p, m1.(close := x), m2) - GrossPnl(w, p, m1, m2)) * (2.0 * p.entry1)
            == (if p.side == Long then p.notional * (x - m1.close) else p.notional * (m1.close - x))
  {
    RiseMoves(w, p.entry1, m1.close, x);
    hide Over;
    if p.side == Long {
      HalfMoves(Over(w, m1.close - p.entry1, p.entry1), Over(w, x - p.entry1, p.entry1),
                Over(w, p.entry2 - m2.close, p.entry2), p.notional, p.entry1, x - m1.close);
    } else {
      HalfMoves(Over(w, p.entry1 - m1.close, p.entry1), Over(w, p.entry1 - x, p.entry1),
                Over(w, m2.close - p.entry2, p.entry2), p.notional, p.entry1, m1.close - x);
    }
  }

  /** Moving only the second close does the opposite. */
  lemma GrossMovesWithSecondLeg<M>(w: World<M>, p: Position, m1: Market, m2: Market, x: real)
    requires p.entry2 != 0.0
    ensures (GrossPnl(w, p, m1, m2.(close := x)) - GrossPnl(w, p, m1, m2)) * (2.0 * p.entry2)
            == (if p.side == Long then p.notional * (m2.close - x) else p.notional * (x - m2.close))
  {
    RiseMoves(w, p.entry2, m2.close, x);
    hide Over;
    if p.side == Long {
      HalfMoves(Over(w, p.entry2 - m2.close, p.entry2), Over(w, p.entry2 - x, p.entry2),
                Over(w, m1.close - p.entry1, p.entry1), p.notional, p.entry2, m2.close - x);
    } else {
      HalfMoves(Over(w, m2.close - p.entry2, p.entry2), Over(w, x - p.entry2, p.entry2),
                Over(w, p.entry1 - m1.close, p.entry1), p.notional, p.entry2, x - m2.close);
    }
  }

  lemma RiseMoves<M>(w: World<M>, entry: real, x: real, y: real)
    requires entry != 0.0
    ensures (Over(w, y - entry, entry) - Over(w, x - entry, entry)) * entry == y - x
    ensures (Over(w, entry - y, entry) - Over(w, entry - x, entry)) * entry == x - y
    ensures x == entry ==> Over(w, x - entry, entry) == 0.0 && Over(w, entry - x, entry) == 0.0
  {
    DivideBack(x - entry, entry);
    DivideBack(y - entry, entry);
    DivideBack(entry - x, entry);
    DivideBack(entry - y, entry);
    Apart((y - entry) / entry, (x - entry) / entry, entry);
    Apart((entry - y) / entry, (entry - x) / entry, entry);
  }

  lemma Apart(a: real, b: real, d: real)
    ensures (a - b) * d == a * d - b * d
  {}

  lemma HalfMoves(a: real, b: real, other: real, n: real, entry: real, d: real)
    requires (b - a) * entry == d
    ensures ((b + other) / 2.0 * n - (a + other) / 2.0 * n) * (2.0 * entry) == n * d
    ensures ((other + b) / 2.0 * n - (other + a) / 2.0 * n) * (2.0 * entry) == n * d
  {
    assert (b + other) / 2.0 * n - (a + other) / 2.0 * n == (b - a) / 2.0 * n;
    assert (b - a) / 2.0 * n * (2.0 * entry) == n * ((b - a) * entry);
  }

  /** A pair entered and left at the same closes never gains, even before costs, on either side: both
      legs were filled against it. */
  lemma ImmediateExitNeverGains<M>(w: World<M>, b: Backtest, bar: nat, sig: Signal, m1: Market, m2: Market)
    requires (sig.side == Long || sig.side == Short) && Allocation(w, b) >= 0.0
    requires var alloc := Allocation(w, b);
             Adverse(w, alloc, m1, sig.side == Long) && Adverse(w, alloc, m2, sig.side == Short)
    requires var p := Enter(w, b, bar, sig, m1, m2, false).positions[sig.pair]; p.entry1 > 0.0 && p.entry2 > 0.0
    ensures GrossPnl(w, Enter(w, b, bar, sig, m1, m2, false).positions[sig.pair], m1, m2) <= 0.0
  {
    hide SimulateFill, Adverse;
    var alloc, long := Allocation(w, b), sig.side == Long;
    var p := Enter(w, b, bar, sig, m1, m2, false).positions[sig.pair];
    assert !long == (sig.side == Short);
    FillsAreAdverse(w, long, alloc, m1);
    FillsAreAdverse(w, !long, alloc, m2);
    EnteredAs(w, b, bar, sig, m1, m2);
    hide Enter;
    NeitherLegGained(w, p, m1, m2);
  }

  lemma EnteredAs<M>(w: World<M>, b: Backtest, bar: nat, sig: Signal, m1: Market, m2: Market)
    ensures var p := Enter(w, b, bar, sig, m1, m2, false).positions[sig.pair];
            var alloc, long := Allocation(w, b), sig.side == Long;
            var f1, f2 := SimulateFill(w, long, alloc, m1), SimulateFill(w, !long, alloc, m2);
            && p.side == sig.side && p.entry1 == f1.price && p.entry2 == f2.price
            && p.notional == Min(f1.filled, f2.filled)
  {
    hide SimulateFill;
  }

  lemma NeitherLegGained<M>(w: World<M>, p: Position, m1: Market, m2: Market)
    requires p.entry1 > 0.0 && p.entry2 > 0.0 && p.notional >= 0.0
    requires p.side == Long ==> m1.close <= p.entry1 && p.entry2 <= m2.close
    requires p.side != Long ==> p.entry1 <= m1.close && m2.close <= p.entry2
    ensures GrossPnl(w, p, m1, m2) <= 0.0
  {
    var loss1 := if p.side == Long then m1.close - p.entry1 else p.entry1 - m1.close;
    var loss2 := if p.side == Long then p.entry2 - m2.close else m2.close - p.entry2;
    NotPositive(loss1, p.entry1);
    NotPositive(loss2, p.entry2);
    Halved(loss1 / p.entry1 + loss2 / p.entry2, p.notional);
  }

  lemma Halved(x: real, n: real)
    requires x <= 0.0 && n >= 0.0
    ensures x / 2.0 * n <= 0.0
  {}

  lemma NotPositive(a: real, b: real)
    requires a <= 0.0 && b > 0.0
    ensures a / b <= 0.0
  {}

  /** What closing costs on top of the entry: two fills against the position, holding and funding. */
  function ExitCost<M>(w: World<M>, p: Position, m1: Market, m2: Market): real {
    SimulateFill(w, p.side != Long, p.notional, m1).cost + SimulateFill(w, p.side == Long, p.notional, m2).cost
  }

  function CarryCost<M>(w: World<M>, p: Position, bar: nat): real
    requires p.bar <= bar
  {
    w.holding(p.notional, bar - p.bar) + w.funding(p.notional, bar - p.bar)
  }

  function Leave<M>(w: World<M>, b: Backtest, bar: nat, pair: string, m1: Market, m2: Market): Backtest
    requires pair in b.positions && b.positions[pair].bar <= bar
  {
    var p := b.positions[pair];
    var gross, exit, carry := GrossPnl(w, p, m1, m2), ExitCost(w, p, m1, m2), CarryCost(w, p, bar);
    var net := gross - p.entryCost - exit - carry;
    b.(capital := b.capital + net, trades := b.trades + [net], costs := b.costs + exit + carry,
       positions := b.positions - {pair}, gross := b.gross + [gross])
  }

  /** Leaving books one trade: the gross result less the entry's cost, the costs of selling the leg that was
      bought and buying back the one that was sold, and holding and funding for the bars held. The capital
      moves by it, and the position is gone. */
  lemma LeavingBooks<M>(w: World<M>, b: Backtest, bar: nat, pair: string, m1: Market, m2: Market)
    requires pair in b.positions && b.positions[pair].bar <= bar
    ensures var p, r := b.positions[pair], Leave(w, b, bar, pair, m1, m2);
            var long := p.side == Long;
            var fills := SimulateFill(w, !long, p.notional, m1).cost + SimulateFill(w, long, p.notional, m2).cost;
            var carry := w.holding(p.notional, bar - p.bar) + w.funding(p.notional, bar - p.bar);
            && |r.trades| == |b.trades| + 1 && b.trades <= r.trades
            && r.trades[|b.trades|] + p.entryCost + fills + carry == GrossPnl(w, p, m1, m2)
            && r.capital == b.capital + r.trades[|b.trades|] && r.costs == b.costs + fills + carry
            && r.positions == b.positions - {pair}
  {
    hide SimulateFill, GrossPnl;
  }

  /** Half the notional on the rise of the first price since entry and half on the fall of the second. */
  function PriceMoves(p: Position, close1: real, close2: real): real
    requires p.entry1 != 0.0 && p.entry2 != 0.0
  {
    p.notional / 2.0 * ((close1 - p.entry1) / p.entry1 + (p.entry2 - close2) / p.entry2)
  }

  /** So a trade and its costs together are what the two price moves are worth to its side. */
  lemma TradeIsTheMoves<M>(w: World<M>, b: Backtest, bar: nat, pair: string, m1: Market, m2: Market)
    requires pair in b.positions && b.positions[pair].bar <= bar
    requires b.positions[pair].entry1 != 0.0 && b.positions[pair].entry2 != 0.0
    ensures var p, r := b.positions[pair], Leave(w, b, bar, pair, m1, m2);
            var trade, costs := r.trades[|b.trades|], p.entryCost + (r.costs - b.costs);
            trade + costs
            == if p.side == Long then PriceMoves(p, m1.close, m2.close) else -PriceMoves(p, m1.close, m2.close)
  {
    var p := b.positions[pair];
    LeavingBooks(w, b, bar, pair, m1, m2);
    GrossIsTheMoves(w, p, m1, m2);
    hide Leave, GrossPnl, SimulateFill, PriceMoves;
  }

  lemma GrossIsTheMoves<M>(w: World<M>, p: Position, m1: Market, m2: Market)
    requires p.entry1 != 0.0 && p.entry2 != 0.0
    ensures GrossPnl(w, p, m1, m2)
            == if p.side == Long then PriceMoves(p, m1.close, m2.close) else -PriceMoves(p, m1.close, m2.close)
  {
    var x, y := (m1.close - p.entry1) / p.entry1, (p.entry2 - m2.close) / p.entry2;
    NegatedOver(m1.close - p.entry1, p.entry1);
    NegatedOver(p.entry2 - m2.close, p.entry2);
    HalfOf(x, y, p.notional);
  }

  lemma NegatedOver(a: real, d: real)
    requires d != 0.0
    ensures (-a) / d == -(a / d)
  {
    DivideBack(a, d);
    var q := a / d;
    assert (-q) * d == -a;
    DivideBack(-a, d);
    Divides((-a) / d, -q, d);
  }

  lemma HalfOf(x: real, y: real, n: real)
    ensures (x + y) / 2.0 * n == n / 2.0 * (x + y) && (-x + -y) / 2.0 * n == -(n / 2.0 * (x + y))
  {}

  /** Entering notes the bar, the side and the prices of both fills of the allocation, and the smaller of the two
      filled amounts; nothing is traded yet. The allocation is the configured percentage of the capital. */
  lemma EnteringNotes<M>(w: World<M>, b: Backtest, bar: nat, sig: Signal, m1: Market, m2: Market, same: bool)
    ensures var r := Enter(w, b, bar, sig, m1, m2, same);
            var buysFirst := sig.side == Long || same;
            var f1 := SimulateFill(w, buysFirst, Allocation(w, b), m1);
            var f2 := SimulateFill(w, !buysFirst, Allocation(w, b), m2);
            && r.positions.Keys == b.positions.Keys + {sig.pair}
            && (forall k :: k in b.positions && k != sig.pair ==> r.positions[k] == b.positions[k])
            && r.positions[sig.pair].side == sig.side && r.positions[sig.pair].bar == bar
            && r.positions[sig.pair].entry1 == f1.price && r.positions[sig.pair].entry2 == f2.price
            && r.positions[sig.pair].notional == Min(f1.filled, f2.filled)
            && r.positions[sig.pair].entryCost == f1.cost + f2.cost == r.costs - b.costs
            && (r.positions[sig.pair].partial <==> f1.partial || f2.partial)
            && r.capital == b.capital && r.trades == b.trades
    ensures 100.0 * Allocation(w, b) == b.capital * w.allocationPct
  {
    AllocationIs(w, b);
    hide SimulateFill, Allocation;
  }

  lemma AllocationIs<M>(w: World<M>, b: Backtest)
    ensures 100.0 * Allocation(w, b) == b.capital * w.allocationPct
  {}

  predicate Entered(b: Backtest, bar: nat) {
    forall k :: k in b.positions ==> b.positions[k].bar <= bar
  }

  function OnSignal<M>(w: World<M>, b: Backtest, bar: nat, row: Row, prev: Option<Row>, sig: Signal): (r: Backtest)
    requires Entered(b, bar)
    ensures Entered(r, bar) && r.values == b.values && r.daily == b.daily
  {
    var parts := Split(sig.pair);
    if |parts| != 2 then b else
      var m1, m2 := MarketState(row, prev, parts[0]), MarketState(row, prev, parts[1]);
      if (sig.side == Long || sig.side == Short) && sig.pair !in b.positions then
        if row.exdate || m1 == None || m2 == None then b
        else Enter(w, b, bar, sig, m1.value, m2.value, parts[0] == parts[1])
      else if sig.side == Exit && sig.pair in b.positions then
        if m1 == None || m2 == None then b else Leave(w, b, bar, sig.pair, m1.value, m2.value)
      else b
  }

  function OnSignals<M>(w: World<M>, b: Backtest, bar: nat, row: Row, prev: Option<Row>,
                        sigs: seq<Signal>): (r: Backtest)
    requires Entered(b, bar)
    ensures Entered(r, bar) && r.values == b.values && r.daily == b.daily
  {
    if |sigs| == 0 then b
    else OnSignal(w, OnSignals(w, b, bar, row, prev, sigs[..|sigs| - 1]), bar, row, prev, sigs[|sigs| - 1])
  }

  /** Both symbols of the pair are priced in the row. */
  predicate Quoted(row: Row, pair: string) {
    var parts := Split(pair);
    |parts| == 2 && parts[0] in row.prices && parts[1] in row.prices
  }

  /** One signal changes at most its own pair: it opens one that is not open, if it says long or short and the day
      is no ex-date, and closes one that is, if it says exit; both only where both symbols are priced. */
  lemma SignalDecides<M>(w: World<M>, b: Backtest, bar: nat, row: Row, prev: Option<Row>, sig: Signal, pair: string)
    requires Entered(b, bar)
    ensures var r := OnSignal(w, b, bar, row, prev, sig);
            && (pair != sig.pair ==> (pair in r.positions <==> pair in b.positions))
            && (pair == sig.pair && pair in b.positions ==>
                  (pair in r.positions <==> !(sig.side == Exit && Quoted(row, pair))))
            && (pair == sig.pair && pair !in b.positions ==>
                  (pair in r.positions <==>
                     (sig.side == Long || sig.side == Short) && Quoted(row, pair) && !row.exdate))
            && (pair in b.positions && pair in r.positions ==> r.positions[pair] == b.positions[pair])
            && (r.capital != b.capital || r.trades != b.trades ==>
                  sig.pair in b.positions && sig.pair !in r.positions)
  {
    hide SimulateFill, Split, GrossPnl, ExitCost, CarryCost;
  }

  predicate Decisive(sig: Signal, pair: string) {
    sig.pair == pair && (sig.side == Long || sig.side == Short || sig.side == Exit)
  }

  /** On an ordinary day a quoted pair follows the last signal about it, on an ex-date it can only be closed, and
      unquoted it stays as it is. */
  ghost predicate Follows(before: bool, after: bool, quoted: bool, exdate: bool, sigs: seq<Signal>, pair: string) {
    && (!quoted || (forall i :: 0 <= i < |sigs| ==> !Decisive(sigs[i], pair)) ==> (after <==> before))
    && (quoted && !exdate ==>
          forall i :: (0 <= i < |sigs| && Decisive(sigs[i], pair)
                       && forall j :: i < j < |sigs| ==> !Decisive(sigs[j], pair)) ==>
            (after <==> sigs[i].side != Exit))
    && (quoted && exdate ==>
          (after <==> before && forall i :: 0 <= i < |sigs| ==> !(sigs[i].pair == pair && sigs[i].side == Exit)))
  }

  lemma FollowsMore(before: bool, mid: bool, after: bool, quoted: bool, exdate: bool, sigs: seq<Signal>, sig: Signal,
                    pair: string)
    requires Follows(before, mid, quoted, exdate, sigs, pair)
    requires after <==> if !quoted || !Decisive(sig, pair) then mid else sig.side != Exit && (mid || !exdate)
    ensures Follows(before, after, quoted, exdate, sigs + [sig], pair)
  {
    var more := sigs + [sig];
    assert forall i :: 0 <= i < |sigs| ==> more[i] == sigs[i];
    assert more[|sigs|] == sig;
  }

  /** What a bar's signals, one after another, leave open. */
  lemma {:induction false} LastSignalDecides<M>(w: World<M>, b: Backtest, bar: nat, row: Row, prev: Option<Row>,
                                                sigs: seq<Signal>, pair: string)
    requires Entered(b, bar)
    ensures Follows(pair in b.positions, pair in OnSignals(w, b, bar, row, prev, sigs).positions, Quoted(row, pair),
                    row.exdate, sigs, pair)
  {
    if |sigs| > 0 {
      var n := |sigs| - 1;
      var m := OnSignals(w, b, bar, row, prev, sigs[..n]);
      assert OnSignals(w, b, bar, row, prev, sigs) == OnSignal(w, m, bar, row, prev, sigs[n]);
      hide OnSignal, OnSignals, Quoted, Follows;
      LastSignalDecides(w, b, bar, row, prev, sigs[..n], pair);
      SignalDecides(w, m, bar, row, prev, sigs[n], pair);
      FollowsMore(pair in b.positions, pair in m.positions, pair in OnSignal(w, m, bar, row, prev, sigs[n]).positions,
                  Quoted(row, pair), row.exdate, sigs[..n], sigs[n], pair);
      assert sigs[..n] + [sigs[n]] == sigs;
    }
  }

  /** A quote is what the row says: the close, the close before if there is one, and the volume or, where the
      volume table has none, a billion. */
  lemma QuoteIs(row: Row, prev: Option<Row>, symbol: Symbol)
    ensures MarketState(row, prev, symbol).Some? <==> symbol in row.prices
    ensures symbol in row.prices ==>
              var m := MarketState(row, prev, symbol).value;
              && m.close == row.prices[symbol]
              && m.volume == (if symbol in row.volumes then row.volumes[symbol] else 1000000000.0)
              && (m.prevClose.Some? <==> prev.Some? && symbol in prev.value.prices)
              && (m.prevClose.Some? ==> m.prevClose.value == prev.value.prices[symbol])
  {}

  function Join(parts: seq<string>): string {
    if |parts| == 0 then "" else if |parts| == 1 then parts[0] else parts[0] + "_" + Join(parts[1..])
  }

  /** Splitting loses nothing and leaves no underscore: joining the parts with underscores gives the text back. */
  lemma {:induction false} SplitIsExact(s: string)
    ensures Join(Split(s)) == s
    ensures forall i :: 0 <= i < |Split(s)| ==> '_' !in Split(s)[i]
  {
    if s != "" {
      SplitIsExact(s[1..]);
      var rest, parts := Split(s[1..]), Split(s);
      assert s == [s[0]] + s[1..];
      if s[0] == '_' {
        assert parts[1..] == rest;
        assert forall i :: 0 < i < |parts| ==> parts[i] == rest[i - 1];
      } else {
        assert parts[1..] == rest[1..];
        assert forall i :: 0 < i < |parts| ==> parts[i] == rest[i];
        if |rest| > 1 { assert parts[0] + "_" + Join(parts[1..]) == [s[0]] + (rest[0] + "_" + Join(rest[1..])); }
      }
    }
  }

  /** The end of a bar records the capital, and a return unless the last value was not positive. */
  function Record(b: Backtest): Backtest
    requires |b.values| > 0
  {
    var last := b.values[|b.values| - 1];
    b.(values := b.values + [b.capital],
       daily := if last > 0.0 then b.daily + [(b.capital - last) / last] else b.daily)
  }

  function Start<M>(w: World<M>): Backtest {
    Backtest(w.initial, map[], [w.initial], [], [], 0.0, [])
  }

  function Previous(rows: seq<Row>, bar: nat): Option<Row>
    requires bar < |rows|
  {
    if bar > 0 then Some(rows[bar - 1]) else None
  }

  /** Backtest and strategy memory once the first `n` rows have been worked through. */
  function After<M>(w: World<M>, rows: seq<Row>, n: nat): (r: (Backtest, M))
    requires n <= |rows|
    ensures Entered(r.0, n) && |r.0.values| == 1 + if n > w.lookback then n - w.lookback else 0
  {
    if n <= w.lookback then (Start(w), w.memory) else
      var (b, memory) := After(w, rows, n - 1);
      var (sigs, memory') := w.decide(memory, rows[..n]);
      (Record(OnSignals(w, b, n - 1, rows[n - 1], Previous(rows, n - 1), sigs)), memory')
  }

  /** A bar after the warm-up asks the strategy, with the memory the last one left it, about all rows so far, its
      own included, and takes its signals at its own row's prices. */
  lemma BarByBar<M>(w: World<M>, rows: seq<Row>, n: nat)
    requires w.lookback <= n < |rows|
    ensures var (b, memory) := After(w, rows, n);
            var (sigs, memory') := w.decide(memory, rows[..n] + [rows[n]]);
            var (r, left) := After(w, rows, n + 1);
            && left == memory'
            && r.positions == OnSignals(w, b, n, rows[n], if n > 0 then Some(rows[n - 1]) else None, sigs).positions
  {
    hide OnSignals;
    assert rows[..n + 1] == rows[..n] + [rows[n]];
  }

  /** Nothing happens before the warm-up is over. */
  lemma WarmUpIsQuiet<M>(w: World<M>, rows: seq<Row>, n: nat)
    requires n <= |rows| && n <= w.lookback
    ensures After(w, rows, n) == (Backtest(w.initial, map[], [w.initial], [], [], 0.0, []), w.memory)
  {}

  // ---- No look-ahead ----

  /** Rows that come later cannot change anything about the bars before them. */
  lemma {:induction false} LaterRowsChangeNothing<M>(w: World<M>, rows: seq<Row>, more: seq<Row>, n: nat)
    requires n <= |rows|
    ensures After(w, rows + more, n) == After(w, rows, n)
  {
    if n > w.lookback {
      hide OnSignals, Record;
      LaterRowsChangeNothing(w, rows, more, n - 1);
      assert Previous(rows + more, n - 1) == Previous(rows, n - 1);
      assert (rows + more)[..n] == rows[..n];
    }
  }

  /** What a bar adds to the record: the capital it ends with, and the return on a positive value. */
  lemma OneBar<M>(w: World<M>, rows: seq<Row>, n: nat)
    requires w.lookback < n <= |rows|
    ensures var b, r := After(w, rows, n - 1).0, After(w, rows, n).0;
            var last := b.values[|b.values| - 1];
            && r.values == b.values + [r.capital] && b.trades <= r.trades
            && r.daily == (if last > 0.0 then b.daily + [Ret(last, r.capital)] else b.daily)
  {
    hide OnSignals;
    var (b, memory) := After(w, rows, n - 1);
    TradesOnlyGrow(w, b, n - 1, rows[n - 1], Previous(rows, n - 1), w.decide(memory, rows[..n]).0);
  }

  lemma {:induction false} ValuesOnlyGrow<M>(w: World<M>, rows: seq<Row>, n: nat, m: nat)
    requires n <= m <= |rows|
    ensures After(w, rows, n).0.values <= After(w, rows, m).0.values
    ensures After(w, rows, n).0.trades <= After(w, rows, m).0.trades
    decreases m
  {
    hide After;
    if n < m {
      ValuesOnlyGrow(w, rows, n, m - 1);
      if m > w.lookback { OneBar(w, rows, m); } else { WarmUp(w, rows, m); }
    }
  }

  lemma WarmUp<M>(w: World<M>, rows: seq<Row>, n: nat)
    requires n <= |rows| && 0 < n <= w.lookback
    ensures After(w, rows, n) == After(w, rows, n - 1)
  {}

  lemma {:induction false} TradesOnlyGrow<M>(w: World<M>, b: Backtest, bar: nat, row: Row, prev: Option<Row>,
                                             sigs: seq<Signal>)
    requires Entered(b, bar)
    ensures b.trades <= OnSignals(w, b, bar, row, prev, sigs).trades
  {
    if |sigs| > 0 { hide SimulateFill, Split, MarketState; TradesOnlyGrow(w, b, bar, row, prev, sigs[..|sigs| - 1]); }
  }

  /** Prefix stability: the values and trades of a backtest over the first rows are a prefix of those
      over any longer data that starts with them. */
  lemma NoLookAhead<M>(w: World<M>, rows: seq<Row>, more: seq<Row>)
    ensures After(w, rows, |rows|).0.values <= After(w, rows + more, |rows + more|).0.values
    ensures After(w, rows, |rows|).0.trades <= After(w, rows + more, |rows + more|).0.trades
  {
    LaterRowsChangeNothing(w, rows, more, |rows|);
    ValuesOnlyGrow(w, rows + more, |rows|, |rows + more|);
  }

  // ---- The cost ledger ----

  function EntryCost(p: Position): real { p.entryCost }

  /** Capital is the initial capital plus the net P&L of closed trades; and it is short of the gross
      result by exactly the costs booked so far, less what open positions were charged on entry. */
  ghost predicate Ledger<M>(w: World<M>, b: Backtest) {
    && b.capital == w.initial + Sum(b.trades)
    && b.capital == w.initial + Sum(b.gross) - b.costs + Total(b.positions, EntryCost)
    && |b.trades| == |b.gross|
  }

  lemma EnterKeepsLedger<M>(w: World<M>, b: Backtest, bar: nat, sig: Signal, m1: Market, m2: Market, same: bool)
    requires Ledger(w, b) && sig.pair !in b.positions
    ensures Ledger(w, Enter(w, b, bar, sig, m1, m2, same))
  {
    hide SimulateFill, Total, Sum;
    var r := Enter(w, b, bar, sig, m1, m2, same);
    TotalStore(b.positions, EntryCost, sig.pair, r.positions[sig.pair]);
  }

  lemma LeaveKeepsLedger<M>(w: World<M>, b: Backtest, bar: nat, pair: string, m1: Market, m2: Market)
    requires Ledger(w, b) && pair in b.positions && b.positions[pair].bar <= bar
    ensures Ledger(w, Leave(w, b, bar, pair, m1, m2))
  {
    hide SimulateFill, Total, Sum, GrossPnl, ExitCost, CarryCost;
    var p, r := b.positions[pair], Leave(w, b, bar, pair, m1, m2);
    TotalDrop(b.positions, EntryCost, pair);
    SumAppend(b.trades, r.trades[|b.trades|]);
    SumAppend(b.gross, r.gross[|b.gross|]);
  }

  lemma {:induction false} SignalsKeepLedger<M>(w: World<M>, b: Backtest, bar: nat, row: Row,
                                                prev: Option<Row>, sigs: seq<Signal>)
    requires Ledger(w, b) && Entered(b, bar)
    ensures Ledger(w, OnSignals(w, b, bar, row, prev, sigs))
  {
    if |sigs| > 0 {
      hide Ledger, Enter, Leave, Split;
      var sig := sigs[|sigs| - 1];
      var c := OnSignals(w, b, bar, row, prev, sigs[..|sigs| - 1]);
      SignalsKeepLedger(w, b, bar, row, prev, sigs[..|sigs| - 1]);
      var parts := Split(sig.pair);
      if |parts| == 2 {
        var m1, m2 := MarketState(row, prev, parts[0]), MarketState(row, prev, parts[1]);
        if m1.Some? && m2.Some? {
          if sig.pair in c.positions { LeaveKeepsLedger(w, c, bar, sig.pair, m1.value, m2.value); }
          else { EnterKeepsLedger(w, c, bar, sig, m1.value, m2.value, parts[0] == parts[1]); }
        }
      }
    }
  }

  /** At every bar of every run the books balance. */
  lemma {:induction false} CapitalLedger<M>(w: World<M>, rows: seq<Row>, n: nat)
    requires n <= |rows|
    ensures Ledger(w, After(w, rows, n).0)
    ensures var b := After(w, rows, n).0; b.values[|b.values| - 1] == b.capital
  {
    if n > w.lookback {
      CapitalLedger(w, rows, n - 1);
      var (b, memory) := After(w, rows, n - 1);
      SignalsKeepLedger(w, b, n - 1, rows[n - 1], Previous(rows, n - 1), w.decide(memory, rows[..n]).0);
    }
  }

  /** The recorded returns compound to the change of value for as long as value stays positive; a bar
      that starts from a value that is not positive leaves no return. */
  lemma {:induction false} ReturnsMatchValues<M>(w: World<M>, rows: seq<Row>, n: nat)
    requires n <= |rows|
    requires var v := After(w, rows, n).0.values; forall i :: 0 <= i < |v| - 1 ==> v[i] > 0.0
    ensures var b := After(w, rows, n).0; ReturnsOf(b.values, b.daily)
  {
    if n > w.lookback {
      hide After, Ret, ReturnsOf;
      OneBar(w, rows, n);
      var b, r := After(w, rows, n - 1).0, After(w, rows, n).0;
      PositiveBefore(b.values, r.values, r.capital);
      ReturnsMatchValues(w, rows, n - 1);
      ReturnsExtend(b.values, b.daily, r.capital);
    }
  }

  lemma PositiveBefore(before: seq<real>, after: seq<real>, last: real)
    requires after == before + [last] && forall i :: 0 <= i < |after| - 1 ==> after[i] > 0.0
    ensures forall i :: 0 <= i < |before| ==> before[i] > 0.0
  {
    forall i | 0 <= i < |before| ensures before[i] > 0.0 { assert after[i] == before[i]; }
  }

  /** The reported total return, a product over daily returns, is the summed net P&L of the reported
      trades over the initial capital. */
  lemma ReportAgrees<M>(w: World<M>, rows: seq<Row>)
    requires var v := After(w, rows, |rows|).0.values; forall i :: 0 <= i < |v| - 1 ==> v[i] > 0.0
    requires w.initial > 0.0
    ensures var b := After(w, rows, |rows|).0;
            var s := FromReturns(b.daily, b.trades);
            s.totalReturn * w.initial == s.realized == b.capital - w.initial
  {
    hide After, Growth, Ret, Ledger, ReturnsOf;
    var b := After(w, rows, |rows|).0;
    CapitalLedger(w, rows, |rows|);
    LedgerMeans(w, b);
    ReturnsMatchValues(w, rows, |rows|);
    StartsAtInitial(w, rows, |rows|);
    ReturnsCount(b.values, b.daily);
    GrowthIsRatio(b.values, b.daily, 0, |b.daily|);
    assert b.daily[0..|b.daily|] == b.daily;
    LessOne(w.initial, Growth(b.daily));
  }

  lemma LedgerMeans<M>(w: World<M>, b: Backtest)
    requires Ledger(w, b)
    ensures b.capital == w.initial + Sum(b.trades)
  {}

  lemma ReturnsCount(values: seq<real>, daily: seq<real>)
    requires ReturnsOf(values, daily)
    ensures |values| == |daily| + 1
  {}

  lemma LessOne(a: real, g: real)
    ensures (g - 1.0) * a == a * g - a
  {}

  lemma StartsAtInitial<M>(w: World<M>, rows: seq<Row>, n: nat)
    requires n <= |rows|
    ensures After(w, rows, n).0.values[0] == w.initial
  {
    ValuesOnlyGrow(w, rows, 0, n);
  }

  // ---- The loops ----

  method ProcessSignals<M>(w: World<M>, before: Backtest, bar: nat, row: Row, prev: Option<Row>, sigs: seq<Signal>)
    returns (b: Backtest)
    requires Entered(before, bar)
    ensures b == OnSignals(w, before, bar, row, prev, sigs)
  {
    hide OnSignals, OnSignal;
    b := before;
    SignalsNone(w, before, bar, row, prev, sigs[..0]);
    for i := 0 to |sigs|
      invariant Entered(b, bar) && b == OnSignals(w, before, bar, row, prev, sigs[..i])
    {
      SignalsMore(w, before, bar, row, prev, sigs, i);
      b := OnSignal(w, b, bar, row, prev, sigs[i]);
    }
    assert sigs[..|sigs|] == sigs;
  }

  lemma SignalsNone<M>(w: World<M>, b: Backtest, bar: nat, row: Row, prev: Option<Row>, sigs: seq<Signal>)
    requires Entered(b, bar) && sigs == []
    ensures OnSignals(w, b, bar, row, prev, sigs) == b
  {}

  lemma SignalsMore<M>(w: World<M>, b: Backtest, bar: nat, row: Row, prev: Option<Row>, sigs: seq<Signal>, i: nat)
    requires Entered(b, bar) && i < |sigs|
    ensures OnSignals(w, b, bar, row, prev, sigs[..i + 1])
            == OnSignal(w, OnSignals(w, b, bar, row, prev, sigs[..i]), bar, row, prev, sigs[i])
  {
    assert sigs[..i + 1][..i] == sigs[..i];
  }

  /** The whole backtest: `none` when the data is not longer than the lookback. */
  method Run<M>(w: World<M>, rows: seq<Row>) returns (report: Option<Summary>, values: seq<real>, costs: real)
    ensures report.None? <==> |rows| <= w.lookback
    ensures var b := After(w, rows, |rows|).0;
            values == b.values && costs == b.costs
            && (report.Some? ==> report.value == FromReturns(b.daily, b.trades))
  {
    var b, memory := Start(w), w.memory;
    if |rows| <= w.lookback { return None, b.values, b.costs; }
    for bar := w.lookback to |rows|
      invariant (b, memory) == After(w, rows, bar)
    {
      var (sigs, next) := w.decide(memory, rows[..bar + 1]);
      b := ProcessSignals(w, b, bar, rows[bar], Previous(rows, bar), sigs);
      b := Record(b);
      memory := next;
    }
    return Some(FromReturns(b.daily, b.trades)), b.values, b.costs;
  }
}
