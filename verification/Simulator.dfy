/** The bar loop of StrategyBacktestSimulator.run (backtests/strategy_simulator.py), with the
    out-of-sample tracker of backtests/simulation_loop.py.

    Everything the loop does not decide itself is an input: which bars the drawdown manager
    halts, the signals, whether an entry passes its gates and at what size and cost, the charges
    of a close. What the loop books from those inputs is modelled statement by statement. */
module Simulator {
  import opened Foundations
  import opened PairBook

  /** Sizes and costs of an entry that passed every gate. */
  datatype Ticket = Ticket(
    notional: real, notional1: real, notional2: real, cost: real,
    halfLife: Option<int>, stopPct: real, borrowFee: real, spreadKnown: bool)

  datatype Intent = Enter(side: Side) | Exit | Other

  /** A strategy signal: its pair key, the key split at "_", and the ticket if the gates let it in. */
  datatype Signal = Signal(key: string, parts: seq<string>, intent: Intent, ticket: Option<Ticket>)

  datatype BarInput = BarInput(halted: bool, closeFraction: real, active: set<string>, signals: seq<Signal>)

  /** What partial profit-taking answers for a position. */
  datatype TakeProfit = Hold | CloseAll | Part(fraction: real)

  /** Decisions of one pass of the block after the bar loop. */
  datatype PassInput = PassInput(reverted: bool, profit: string -> TakeProfit)

  datatype Env = Env(
    market: Market, charges: Charges, partCharge: (Position, real) -> real,
    timeUp: (int, Option<int>) -> bool,
    maxLoss: real, trailActivation: real, trailGap: real)

  /** Why a closing loop closes a position. */
  datatype Trigger = Always | LossStop | TimeStop

  /** The accumulators of one run. */
  datatype Book = Book(
    open: seq<Entry>,
    values: seq<real>, daily: seq<real>, trades: seq<real>, durations: seq<nat>,
    perPair: map<string, seq<real>>,
    spreads: set<string>, pca: set<string>, partials: set<string>, active: set<string>,
    realized: real, carried: real, accepted: nat,
    oosStart: Option<nat>, oosTrade: Option<nat>, oosReturns: seq<real>)

  /** `portfolio_values[-1]`; the list is never empty. */
  function Last(xs: seq<real>): real { if |xs| == 0 then 0.0 else xs[|xs| - 1] }

  function Fresh(capital: real, oosStart: Option<nat>): Book {
    Book([], [capital], [], [], [], map[], {}, {}, {}, {}, 0.0, 0.0, 0, oosStart, None, [])
  }

  // ---- Booking ----

  /** `_per_pair_trades.setdefault(key, []).append(pnl)` */
  function Record(m: map<string, seq<real>>, key: string, pnl: real): map<string, seq<real>> {
    m[key := (if key in m then m[key] else []) + [pnl]]
  }

  /** The block every closing path repeats: pop, book the day's P&L and the round trip, and drop
      the pair from the side registries; only some paths also drop it from the strategy. */
  function BookClose(b: Book, i: nat, c: Closed, drop: bool): Book
    requires i < |b.open|
  {
    var key := b.open[i].key;
    b.(open := Take(b.open, i),
       realized := b.realized + c.daily,
       trades := b.trades + [c.full],
       durations := b.durations + [c.days],
       perPair := Record(b.perPair, key, c.full),
       spreads := b.spreads - {key}, pca := b.pca - {key}, partials := b.partials - {key},
       active := if drop then b.active - {key} else b.active)
  }

  function CloseOne(env: Env, b: Book, i: nat, bar: int, drop: bool): Book
    requires i < |b.open|
  {
    BookClose(b, i, ClosePosition(b.open[i].pos, env.market, env.charges, bar), drop)
  }

  predicate Fires(env: Env, t: Trigger, pos: Position, bar: int) {
    match t
    case Always => true
    case LossStop =>
      (if pos.notional > 0.0 then -Unrealized(pos, env.market, bar) / pos.notional else 0.0) >= pos.stopPct
    case TimeStop => env.timeUp(bar - pos.entryBar, pos.halfLife)
  }

  /** A closing loop over a snapshot of keys. */
  function CloseWhere(env: Env, b: Book, keys: seq<string>, bar: int, t: Trigger, drop: bool): Book
    decreases |keys|
  {
    if |keys| == 0 then b else
      var i := IndexOf(b.open, keys[0]);
      var b' := if i < |b.open| && Fires(env, t, b.open[i].pos, bar) then CloseOne(env, b, i, bar, drop) else b;
      CloseWhere(env, b', keys[1..], bar, t, drop)
  }

  method CloseLoop(env: Env, b: Book, keys: seq<string>, bar: int, t: Trigger, drop: bool) returns (r: Book)
    ensures r == CloseWhere(env, b, keys, bar, t, drop)
  {
    r := b;
    for n := 0 to |keys|
      invariant CloseWhere(env, r, keys[n..], bar, t, drop) == CloseWhere(env, b, keys, bar, t, drop)
    {
      assert keys[n..][1..] == keys[n + 1..];
      var i := IndexOf(r.open, keys[n]);
      if i < |r.open| && Fires(env, t, r.open[i].pos, bar) {
        r := CloseOne(env, r, i, bar, drop);
      }
    }
  }

  /** Append a portfolio value and its return, and let the out-of-sample tracker record it. */
  function Append(b: Book, change: real, bar: int): Book {
    var last := Last(b.values);
    var ret := if last > 0.0 then change / last else 0.0;
    var seen := Observe(b.oosStart, (b.oosTrade, b.oosReturns), bar, |b.trades|, ret);
    b.(values := b.values + [last + change], daily := b.daily + [ret], oosTrade := seen.0, oosReturns := seen.1)
  }

  /** What the tracker holds after a bar: from the window's start on, the return is kept, and the
      first time the number of trades so far is noted. */
  function Observe(start: Option<nat>, held: (Option<nat>, seq<real>), bar: int, trades: nat, ret: real)
    : (Option<nat>, seq<real>)
  {
    if start == None || bar < start.value then held
    else (if held.0 == None then Some(trades) else held.0, held.1 + [ret])
  }

  /** `OOSTracker`: where the out-of-sample window starts and what was recorded in it. */
  class OOSTracker {
    var startBar: Option<nat>
    var tradeStart: Option<nat>
    var dailyReturns: seq<real>

    constructor ()
      ensures startBar == None && tradeStart == None && dailyReturns == []
    {
      startBar, tradeStart, dailyReturns := None, None, [];
    }

    /** The first dated row at or after the start date, but never before the warm-up ends; no
        window when no date was given or none is late enough. */
    method Initialize(dates: seq<int>, start: Option<int>, lookback: nat)
      modifies this
      ensures tradeStart == old(tradeStart) && dailyReturns == old(dailyReturns)
      ensures start == None || (forall i :: 0 <= i < |dates| ==> dates[i] < start.value) ==> startBar == old(startBar)
      ensures start.Some? && (exists i :: 0 <= i < |dates| && dates[i] >= start.value) ==>
                exists i :: 0 <= i < |dates| && dates[i] >= start.value
                            && (forall j :: 0 <= j < i ==> dates[j] < start.value)
                            && startBar == Some(if lookback > i then lookback else i)
    {
      if start == None { return; }
      for i := 0 to |dates|
        invariant startBar == old(startBar) && tradeStart == old(tradeStart) && dailyReturns == old(dailyReturns)
        invariant forall j :: 0 <= j < i ==> dates[j] < start.value
      {
        if dates[i] >= start.value {
          startBar := Some(if lookback > i then lookback else i);
          return;
        }
      }
    }

    method Record(bar: int, trades: nat, ret: real)
      modifies this
      ensures startBar == old(startBar)
      ensures (tradeStart, dailyReturns) == Observe(startBar, old((tradeStart, dailyReturns)), bar, trades, ret)
    {
      if startBar == None || bar < startBar.value { return; }
      if tradeStart == None { tradeStart := Some(trades); }
      dailyReturns := dailyReturns + [ret];
    }
  }

  /** Mark the open positions: realised P&L plus the change of the mark is the equity change. */
  function Marked(env: Env, b: Book, bar: int): (Book, real) {
    var mark := MarkAll(b.open, env.market, bar);
    (b.(carried := mark), b.realized + (mark - b.carried))
  }

  // ---- Signals ----

  function Opened(s: Signal, t: Ticket, side: Side, m: Market, bar: int): Position
    requires |s.parts| == 2
  {
    Position(side, s.parts[0], s.parts[1],
             m.price(s.parts[0], bar + 1), m.price(s.parts[1], bar + 1), bar + 1,
             t.notional, t.notional1, t.notional2, t.cost, t.halfLife, 0.0, t.stopPct, t.borrowFee)
  }

  function EnterPair(b: Book, key: string, pos: Position, spreadKnown: bool): Book {
    b.(open := b.open + [Entry(key, pos)],
       realized := b.realized - pos.entryCost,
       accepted := b.accepted + 1,
       spreads := if spreadKnown then b.spreads + {key} else b.spreads,
       pca := if spreadKnown then b.pca + {key} else b.pca,
       partials := b.partials + {key})
  }

  function OnSignal(env: Env, b: Book, s: Signal, bar: int): Book {
    if |s.parts| != 2 || !env.market.listed(s.parts[0]) || !env.market.listed(s.parts[1]) then b else
      var i := IndexOf(b.open, s.key);
      match s.intent
      case Enter(side) =>
        if i < |b.open| || s.ticket == None || bar + 1 >= env.market.bars then b
        else EnterPair(b, s.key, Opened(s, s.ticket.value, side, env.market, bar), s.ticket.value.spreadKnown)
      case Exit => if i < |b.open| then CloseOne(env, b, i, bar, false) else b
      case Other => b
  }

  function OnSignals(env: Env, b: Book, ss: seq<Signal>, bar: int): Book
    decreases |ss|
  {
    if |ss| == 0 then b else OnSignals(env, OnSignal(env, b, ss[0], bar), ss[1..], bar)
  }

  // ---- One bar ----

  /** A closing loop over the whole book. */
  function CloseBook(env: Env, b: Book, bar: int, t: Trigger, drop: bool): Book {
    CloseWhere(env, b, KeyList(b.open), bar, t, drop)
  }

  function LossStops(env: Env, b: Book, bar: int): Book {
    if env.maxLoss > 0.0 then CloseBook(env, b, bar, LossStop, true) else b
  }

  /** `max(1, int(len(positions) * fraction))` */
  function TierCount(size: nat, fraction: real): nat {
    var n := (size as real * fraction).Floor;
    if n > 1 then n else 1
  }

  /** Tier-2 closes, weakest first. */
  function TierTwo(env: Env, b: Book, fraction: real, bar: int): Book {
    if fraction <= 0.0 then b
    else CloseWhere(env, b, Weakest(b.open, env.market, bar, TierCount(|b.open|, fraction)), bar, Always, true)
  }

  /** Drop from the strategy the trades that are not open here. */
  function SyncActive(b: Book): Book { b.(active := b.active * Keys(b.open)) }

  function BeforeMark(env: Env, b: Book, bar: int, input: BarInput): Book {
    var b1 := LossStops(env, TierTwo(env, b.(realized := 0.0), input.closeFraction, bar), bar);
    var b2 := OnSignals(env, b1.(active := input.active), input.signals, bar);
    CloseBook(env, SyncActive(b2), bar, TimeStop, true)
  }

  /** The book and the equity change a bar ends with. A halt closes everything into a separate
      total and forgets the carried mark; an ordinary bar adds the change of the mark. */
  function Settle(env: Env, b: Book, bar: int, input: BarInput): (Book, real) {
    if input.halted then
      var c := CloseBook(env, b.(realized := 0.0), bar, Always, false);
      (c.(realized := 0.0, carried := 0.0), c.realized)
    else
      Marked(env, BeforeMark(env, b, bar, input), bar)
  }

  function Bar(env: Env, b: Book, bar: int, input: BarInput): Book
  {
    var (c, change) := Settle(env, b, bar, input);
    Append(c, change, bar)
  }

  /** The bar loop, from bar number `bar` on. */
  function Bars(env: Env, b: Book, bar: int, inputs: seq<BarInput>): Book
    decreases |inputs|
  {
    if |inputs| == 0 then b else Bars(env, Bar(env, b, bar, inputs[0]), bar + 1, inputs[1..])
  }

  // ---- The block after the loop ----

  /** Partial profit-taking: a full close, or part of the notional realised and booked as a trade. */
  function ProfitOne(env: Env, b: Book, i: nat, bar: int, t: TakeProfit): Book
    requires i < |b.open|
  {
    var e := b.open[i];
    match t
    case Hold => b
    case CloseAll => CloseOne(env, b, i, bar, true)
    case Part(f) =>
      if f <= 0.0 then b else
        BookPart(b, i, PartLeft(e.pos, f), PartPnl(env, e.pos, bar, f))
  }

  /** P&L of closing a fraction of a position, and the position that is left: only `notional`
      shrinks, the per-leg notionals do not. */
  function PartPnl(env: Env, pos: Position, bar: int, f: real): real {
    PartOf(Unrealized(pos, env.market, bar), f) - PartCost(env, pos, f)
  }

  function PartCost(env: Env, pos: Position, f: real): real { env.partCharge(pos, PartOf(pos.notional, f)) }

  function PartOf(x: real, f: real): real { x * f }

  function PartLeft(pos: Position, f: real): Position {
    pos.(notional := PartOf(pos.notional, 1.0 - f))
  }

  /** Keep a position open in a changed form and book P&L against it. */
  function BookPart(b: Book, i: nat, pos: Position, pnl: real): Book
    requires i < |b.open|
  {
    b.(open := b.open[i := Entry(b.open[i].key, pos)],
       realized := b.realized + pnl,
       trades := b.trades + [pnl],
       perPair := Record(b.perPair, b.open[i].key, pnl))
  }

  function TakeProfits(env: Env, b: Book, keys: seq<string>, bar: int, profit: string -> TakeProfit): Book
    decreases |keys|
  {
    if |keys| == 0 then b else
      var i := IndexOf(b.open, keys[0]);
      var b' := if i < |b.open| then ProfitOne(env, b, i, bar, profit(keys[0])) else b;
      TakeProfits(env, b', keys[1..], bar, profit)
  }

  /** Trailing stop: raise the recorded peak, then close once the drawback from it is too large. */
  function TrailOne(env: Env, b: Book, i: nat, bar: int): Book
    requires i < |b.open|
  {
    var e := b.open[i];
    var u := Unrealized(e.pos, env.market, bar);
    var peak := if u > e.pos.peak then u else e.pos.peak;
    var b' := b.(open := b.open[i := Entry(e.key, e.pos.(peak := peak))]);
    var n := e.pos.notional;
    if (if n > 0.0 then peak / n else 0.0) >= env.trailActivation
       && (if n > 0.0 then (peak - u) / n else 0.0) >= env.trailGap
    then CloseOne(env, b', i, bar, true) else b'
  }

  function Trail(env: Env, b: Book, keys: seq<string>, bar: int): Book
    decreases |keys|
  {
    if |keys| == 0 then b else
      var i := IndexOf(b.open, keys[0]);
      Trail(env, if i < |b.open| then TrailOne(env, b, i, bar) else b, keys[1..], bar)
  }

  function PassBeforeMark(env: Env, b: Book, i: nat, bar: int, input: PassInput): Book
    requires i < |b.open|
  {
    var b1 := if input.reverted then CloseOne(env, b, i, bar, true) else b;
    var b2 := TakeProfits(env, b1, KeyList(b1.open), bar, input.profit);
    var b3 := LossStops(env, CloseBook(env, b2, bar, TimeStop, true), bar);
    if env.trailActivation > 0.0 then Trail(env, b3, KeyList(b3.open), bar) else b3
  }

  /** One pass per key open when the loop ended. `realized` is not reset between passes, nor
      after the last bar. */
  function Pass(env: Env, b: Book, i: nat, bar: int, input: PassInput): Book
    requires i < |b.open|
  {
    var (c, change) := Marked(env, PassBeforeMark(env, b, i, bar, input), bar);
    Append(c, change, bar)
  }

  /** The passes; a key closed by an earlier pass is skipped. */
  function Passes(env: Env, b: Book, keys: seq<string>, bar: int, inputs: string -> PassInput): Book
    decreases |keys|
  {
    if |keys| == 0 then b else
      var i := IndexOf(b.open, keys[0]);
      Passes(env, if i < |b.open| then Pass(env, b, i, bar, inputs(keys[0])) else b, keys[1..], bar, inputs)
  }

  /** Force-close of whatever is left; the value is appended only when something was realised. */
  function FinalClose(env: Env, b: Book): Book
  {
    if |b.open| == 0 then b else
      var c := CloseBook(env, b.(realized := 0.0), env.market.bars - 1, Always, false);
      if c.realized != 0.0 then Append(c, c.realized, env.market.bars - 1) else c
  }

  /** The whole run on the bars from `lookback` to the last. */
  function Finish(env: Env, b: Book, passes: string -> PassInput): Book
  {
    FinalClose(env, Passes(env, b, KeyList(b.open), env.market.bars - 1, passes))
  }

  // ---- The loops as the simulator runs them ----

  method MarkLoop(env: Env, open: seq<Entry>, bar: int) returns (mark: real)
    ensures mark == MarkAll(open, env.market, bar)
  {
    mark := 0.0;
    for n := 0 to |open|
      invariant mark == MarkAll(open[..n], env.market, bar)
    {
      assert open[..n + 1][..n] == open[..n];
      mark := mark + Mark(open[n].pos, env.market, bar);
    }
    assert open[..|open|] == open;
  }

  method SignalLoop(env: Env, b: Book, ss: seq<Signal>, bar: int) returns (r: Book)
    ensures r == OnSignals(env, b, ss, bar)
  {
    r := b;
    for n := 0 to |ss|
      invariant OnSignals(env, r, ss[n..], bar) == OnSignals(env, b, ss, bar)
    {
      assert ss[n..][1..] == ss[n + 1..];
      r := OnSignal(env, r, ss[n], bar);
    }
  }

  method ProfitLoop(env: Env, b: Book, bar: int, profit: string -> TakeProfit) returns (r: Book)
    ensures r == TakeProfits(env, b, KeyList(b.open), bar, profit)
  {
    r := b;
    var keys := KeyList(b.open);
    for n := 0 to |keys|
      invariant TakeProfits(env, r, keys[n..], bar, profit) == TakeProfits(env, b, keys, bar, profit)
    {
      assert keys[n..][1..] == keys[n + 1..];
      var i := IndexOf(r.open, keys[n]);
      if i < |r.open| { r := ProfitOne(env, r, i, bar, profit(keys[n])); }
    }
  }

  method TrailLoop(env: Env, b: Book, bar: int) returns (r: Book)
    ensures r == Trail(env, b, KeyList(b.open), bar)
  {
    r := b;
    var keys := KeyList(b.open);
    for n := 0 to |keys|
      invariant Trail(env, r, keys[n..], bar) == Trail(env, b, keys, bar)
    {
      assert keys[n..][1..] == keys[n + 1..];
      var i := IndexOf(r.open, keys[n]);
      if i < |r.open| { r := TrailOne(env, r, i, bar); }
    }
  }

  method BarStep(env: Env, b: Book, bar: int, input: BarInput) returns (r: Book)
    ensures r == Bar(env, b, bar, input)
  {
    hide CloseWhere, OnSignals, Weakest, Append, MarkAll, KeyList;
    r := b.(realized := 0.0);
    if input.halted {
      r := CloseLoop(env, r, KeyList(r.open), bar, Always, false);
      r := Append(r.(realized := 0.0, carried := 0.0), r.realized, bar);
      return;
    }
    if input.closeFraction > 0.0 {
      var weakest := Weakest(r.open, env.market, bar, TierCount(|r.open|, input.closeFraction));
      r := CloseLoop(env, r, weakest, bar, Always, true);
    }
    if env.maxLoss > 0.0 {
      r := CloseLoop(env, r, KeyList(r.open), bar, LossStop, true);
    }
    r := SignalLoop(env, r.(active := input.active), input.signals, bar);
    r := SyncActive(r);
    r := CloseLoop(env, r, KeyList(r.open), bar, TimeStop, true);
    var mark := MarkLoop(env, r.open, bar);
    r := Append(r.(carried := mark), r.realized + (mark - r.carried), bar);
  }

  method PassStep(env: Env, b: Book, i: nat, bar: int, input: PassInput) returns (r: Book)
    requires i < |b.open|
    ensures r == Pass(env, b, i, bar, input)
  {
    hide CloseWhere, CloseOne, TakeProfits, Trail, Append, MarkAll, KeyList;
    r := b;
    if input.reverted { r := CloseOne(env, r, i, bar, true); }
    r := ProfitLoop(env, r, bar, input.profit);
    r := CloseLoop(env, r, KeyList(r.open), bar, TimeStop, true);
    if env.maxLoss > 0.0 {
      r := CloseLoop(env, r, KeyList(r.open), bar, LossStop, true);
    }
    if env.trailActivation > 0.0 { r := TrailLoop(env, r, bar); }
    var mark := MarkLoop(env, r.open, bar);
    r := Append(r.(carried := mark), r.realized + (mark - r.carried), bar);
  }

  method PassLoop(env: Env, b: Book, passes: string -> PassInput) returns (r: Book)
    ensures r == Passes(env, b, KeyList(b.open), env.market.bars - 1, passes)
  {
    hide Pass;
    r := b;
    var keys, last := KeyList(b.open), env.market.bars - 1;
    for n := 0 to |keys|
      invariant Passes(env, r, keys[n..], last, passes) == Passes(env, b, keys, last, passes)
    {
      assert keys[n..][1..] == keys[n + 1..];
      var i := IndexOf(r.open, keys[n]);
      if i < |r.open| { r := PassStep(env, r, i, last, passes(keys[n])); }
    }
  }

  method ForceClose(env: Env, b: Book) returns (r: Book)
    ensures r == FinalClose(env, b)
  {
    hide CloseWhere, Append, KeyList;
    if |b.open| == 0 { return b; }
    r := CloseLoop(env, b.(realized := 0.0), KeyList(b.open), env.market.bars - 1, Always, false);
    if r.realized != 0.0 { r := Append(r, r.realized, env.market.bars - 1); }
  }

  /** `run`: no result when the frame is no longer than the warm-up. */
  method Run(env: Env, capital: real, oosStart: Option<nat>, lookback: nat, inputs: seq<BarInput>,
             passes: string -> PassInput) returns (r: Option<Book>)
    requires |inputs| == if env.market.bars > lookback then env.market.bars - lookback else 0
    ensures r == None <==> env.market.bars <= lookback
    ensures r.Some? ==> r.value == Finish(env, Bars(env, Fresh(capital, oosStart), lookback, inputs), passes)
  {
    hide Bar, Passes, FinalClose, KeyList;
    if env.market.bars <= lookback { return None; }
    var b := Fresh(capital, oosStart);
    for n := 0 to |inputs|
      invariant Bars(env, b, lookback + n, inputs[n..]) == Bars(env, Fresh(capital, oosStart), lookback, inputs)
    {
      assert inputs[n..][1..] == inputs[n + 1..];
      b := BarStep(env, b, lookback + n, inputs[n]);
    }
    b := PassLoop(env, b, passes);
    b := ForceClose(env, b);
    return Some(b);
  }

  // ---- What every booking step keeps ----

  /** Portfolio value plus P&L not yet added to it, less what trades, marks and the entry costs
      of open positions account for. */
  ghost function Net(b: Book): real {
    Last(b.values) + b.realized - Sum(b.trades) - b.carried + OpenCosts(b.open)
  }

  ghost function Length(xs: seq<real>): real { |xs| as real }

  /** Trades, durations, per-pair lists and side registries all describe the same entries. */
  ghost predicate Agrees(b: Book) {
    && Distinct(b.open)
    && b.partials == Keys(b.open) && b.spreads <= Keys(b.open) && b.pca <= Keys(b.open)
    && b.accepted == |b.open| + |b.durations|
    && Total(b.perPair, Length) == |b.trades| as real
    && Total(b.perPair, Sum) == Sum(b.trades)
  }

  /** The lists a bar appends to are untouched. */
  ghost predicate SameLists(a: Book, b: Book) {
    && a.values == b.values && a.daily == b.daily && a.carried == b.carried
    && a.oosStart == b.oosStart && a.oosTrade == b.oosTrade && a.oosReturns == b.oosReturns
  }

  ghost predicate Keeps(a: Book, b: Book) {
    SameLists(a, b) && a.trades <= b.trades && Net(b) == Net(a) && (Agrees(a) ==> Agrees(b))
  }

  lemma KeepsSelf(a: Book)
    ensures Keeps(a, a)
  {}

  lemma KeepsChain(a: Book, b: Book, c: Book)
    requires Keeps(a, b) && Keeps(b, c)
    ensures Keeps(a, c)
  {
    hide Net, Agrees;
  }

  /** What the strategy tracks is no part of the accounts. */
  lemma KeepsActive(a: Book, active: set<string>)
    ensures Keeps(a, a.(active := active))
  {}

  lemma RecordTotals(m: map<string, seq<real>>, key: string, pnl: real)
    ensures Total(Record(m, key, pnl), Length) == Total(m, Length) + 1.0
    ensures Total(Record(m, key, pnl), Sum) == Total(m, Sum) + pnl
  {
    var xs := if key in m then m[key] else [];
    TotalStore(m, Length, key, xs + [pnl]);
    TotalStore(m, Sum, key, xs + [pnl]);
    SumAppend(xs, pnl);
  }

  lemma BookCloseKeeps(b: Book, i: nat, c: Closed, drop: bool)
    requires i < |b.open| && c.daily - c.full == b.open[i].pos.entryCost
    ensures Keeps(b, BookClose(b, i, c, drop))
  {
    hide Sum, Total, OpenCosts, Record;
    SumAppend(b.trades, c.full);
    TakeCosts(b.open, i);
    RecordTotals(b.perPair, b.open[i].key, c.full);
    if Agrees(b) {
      TakeKeys(b.open, i);
    }
  }

  lemma CloseOneKeeps(env: Env, b: Book, i: nat, bar: int, drop: bool)
    requires i < |b.open|
    ensures Keeps(b, CloseOne(env, b, i, bar, drop))
  {
    CloseRealisesTheMark(b.open[i].pos, env.market, env.charges, bar);
    BookCloseKeeps(b, i, ClosePosition(b.open[i].pos, env.market, env.charges, bar), drop);
  }

  lemma {:induction false} CloseKeeps(env: Env, b: Book, keys: seq<string>, bar: int, t: Trigger, drop: bool)
    ensures Keeps(b, CloseWhere(env, b, keys, bar, t, drop))
    decreases |keys|
  {
    hide Keeps, CloseOne, Fires;
    if |keys| == 0 {
      KeepsSelf(b);
    } else {
      var i := IndexOf(b.open, keys[0]);
      if i < |b.open| && Fires(env, t, b.open[i].pos, bar) {
        var c := CloseOne(env, b, i, bar, drop);
        CloseOneKeeps(env, b, i, bar, drop);
        CloseKeeps(env, c, keys[1..], bar, t, drop);
        KeepsChain(b, c, CloseWhere(env, c, keys[1..], bar, t, drop));
      } else {
        CloseKeeps(env, b, keys[1..], bar, t, drop);
      }
    }
  }

  lemma EnterKeeps(b: Book, key: string, pos: Position, spreadKnown: bool)
    requires key !in Keys(b.open)
    ensures Keeps(b, EnterPair(b, key, pos, spreadKnown))
  {
    OpenCostsConcat(b.open, [Entry(key, pos)]);
    if Agrees(b) {
      PutKeys(b.open, key, pos);
    }
  }

  lemma SignalKeeps(env: Env, b: Book, s: Signal, bar: int)
    ensures Keeps(b, OnSignal(env, b, s, bar))
  {
    hide Keeps, EnterPair, CloseOne, Opened;
    var i := IndexOf(b.open, s.key);
    if OnSignal(env, b, s, bar) == b {
      KeepsSelf(b);
    } else {
      match s.intent
      case Enter(side) =>
        EnterKeeps(b, s.key, Opened(s, s.ticket.value, side, env.market, bar), s.ticket.value.spreadKnown);
      case Exit => CloseOneKeeps(env, b, i, bar, false);
      case Other =>
    }
  }

  lemma {:induction false} SignalsKeep(env: Env, b: Book, ss: seq<Signal>, bar: int)
    ensures Keeps(b, OnSignals(env, b, ss, bar))
    decreases |ss|
  {
    hide Keeps, OnSignal;
    if |ss| == 0 {
      KeepsSelf(b);
    } else {
      var c := OnSignal(env, b, ss[0], bar);
      SignalKeeps(env, b, ss[0], bar);
      SignalsKeep(env, c, ss[1..], bar);
      KeepsChain(b, c, OnSignals(env, c, ss[1..], bar));
    }
  }

  lemma TierTwoKeeps(env: Env, b: Book, fraction: real, bar: int)
    ensures Keeps(b, TierTwo(env, b, fraction, bar))
  {
    hide Keeps, CloseWhere, Weakest;
    KeepsSelf(b);
    CloseKeeps(env, b, Weakest(b.open, env.market, bar, TierCount(|b.open|, fraction)), bar, Always, true);
  }

  lemma LossStopsKeep(env: Env, b: Book, bar: int)
    ensures Keeps(b, LossStops(env, b, bar))
  {
    hide Keeps, CloseWhere;
    KeepsSelf(b);
    CloseKeeps(env, b, KeyList(b.open), bar, LossStop, true);
  }

  lemma BeforeMarkKeeps(env: Env, b: Book, bar: int, input: BarInput)
    ensures Keeps(b.(realized := 0.0), BeforeMark(env, b, bar, input))
  {
    hide Keeps, CloseWhere, OnSignals, TierTwo, LossStops;
    var a0 := b.(realized := 0.0);
    var a1 := TierTwo(env, a0, input.closeFraction, bar);
    TierTwoKeeps(env, a0, input.closeFraction, bar);
    var a2 := LossStops(env, a1, bar);
    LossStopsKeep(env, a1, bar);
    KeepsChain(a0, a1, a2);
    var a3 := a2.(active := input.active);
    KeepsActive(a2, input.active);
    KeepsChain(a0, a2, a3);
    var a4 := OnSignals(env, a3, input.signals, bar);
    SignalsKeep(env, a3, input.signals, bar);
    KeepsChain(a0, a3, a4);
    var a5 := SyncActive(a4);
    KeepsActive(a4, a5.active);
    KeepsChain(a0, a4, a5);
    CloseKeeps(env, a5, KeyList(a5.open), bar, TimeStop, true);
    KeepsChain(a0, a5, CloseBook(env, a5, bar, TimeStop, true));
  }

  /** What settling a bar leaves alone, and what it does to the accounts. */
  lemma SettleKeeps(env: Env, b: Book, bar: int, input: BarInput)
    ensures var (c, change) := Settle(env, b, bar, input);
            && SameLists(b.(carried := c.carried), c) && b.trades <= c.trades
            && (Agrees(b) ==> Agrees(c))
            && change - Sum(c.trades) - c.carried + OpenCosts(c.open)
               == -Sum(b.trades) - b.carried + OpenCosts(b.open) + (if input.halted then b.carried else 0.0)
  {
    hide CloseWhere, BeforeMark, MarkAll, Distinct;
    if input.halted {
      CloseKeeps(env, b.(realized := 0.0), KeyList(b.open), bar, Always, false);
    } else {
      BeforeMarkKeeps(env, b, bar, input);
    }
  }

  lemma ProfitOneKeeps(env: Env, b: Book, i: nat, bar: int, t: TakeProfit)
    requires i < |b.open|
    ensures Keeps(b, ProfitOne(env, b, i, bar, t))
  {
    match t
    case Hold =>
    case CloseAll => CloseOneKeeps(env, b, i, bar, true);
    case Part(f) =>
      BookPartKeeps(b, i, PartLeft(b.open[i].pos, f), PartPnl(env, b.open[i].pos, bar, f));
  }

  lemma BookPartKeeps(b: Book, i: nat, pos: Position, pnl: real)
    requires i < |b.open| && pos.entryCost == b.open[i].pos.entryCost
    ensures Keeps(b, BookPart(b, i, pos, pnl))
  {
    hide Sum, Total, OpenCosts, Record;
    SumAppend(b.trades, pnl);
    RecordTotals(b.perPair, b.open[i].key, pnl);
    ReplaceCosts(b.open, i, pos);
    if Agrees(b) { ReplaceKeys(b.open, i, pos); }
  }

  lemma {:induction false} ProfitsKeep(env: Env, b: Book, keys: seq<string>, bar: int, profit: string -> TakeProfit)
    ensures Keeps(b, TakeProfits(env, b, keys, bar, profit))
    decreases |keys|
  {
    hide Keeps, ProfitOne;
    if |keys| == 0 {
      KeepsSelf(b);
    } else {
      var i := IndexOf(b.open, keys[0]);
      if i < |b.open| {
        var c := ProfitOne(env, b, i, bar, profit(keys[0]));
        ProfitOneKeeps(env, b, i, bar, profit(keys[0]));
        ProfitsKeep(env, c, keys[1..], bar, profit);
        KeepsChain(b, c, TakeProfits(env, c, keys[1..], bar, profit));
      } else {
        ProfitsKeep(env, b, keys[1..], bar, profit);
      }
    }
  }

  lemma ReplaceKeeps(b: Book, i: nat, pos: Position)
    requires i < |b.open| && pos.entryCost == b.open[i].pos.entryCost
    ensures Keeps(b, b.(open := b.open[i := Entry(b.open[i].key, pos)]))
  {
    hide Sum, Total, OpenCosts;
    ReplaceCosts(b.open, i, pos);
    if Agrees(b) { ReplaceKeys(b.open, i, pos); }
  }

  lemma TrailOneKeeps(env: Env, b: Book, i: nat, bar: int)
    requires i < |b.open|
    ensures Keeps(b, TrailOne(env, b, i, bar))
  {
    hide Keeps, CloseOne, Unrealized;
    var e, u := b.open[i], Unrealized(b.open[i].pos, env.market, bar);
    var pos := e.pos.(peak := if u > e.pos.peak then u else e.pos.peak);
    var c := b.(open := b.open[i := Entry(e.key, pos)]);
    ReplaceKeeps(b, i, pos);
    CloseOneKeeps(env, c, i, bar, true);
    KeepsChain(b, c, CloseOne(env, c, i, bar, true));
  }

  lemma {:induction false} TrailKeeps(env: Env, b: Book, keys: seq<string>, bar: int)
    ensures Keeps(b, Trail(env, b, keys, bar))
    decreases |keys|
  {
    hide Keeps, TrailOne;
    if |keys| == 0 {
      KeepsSelf(b);
    } else {
      var i := IndexOf(b.open, keys[0]);
      if i < |b.open| {
        var c := TrailOne(env, b, i, bar);
        TrailOneKeeps(env, b, i, bar);
        TrailKeeps(env, c, keys[1..], bar);
        KeepsChain(b, c, Trail(env, c, keys[1..], bar));
      } else {
        TrailKeeps(env, b, keys[1..], bar);
      }
    }
  }

  lemma PassKeeps(env: Env, b: Book, i: nat, bar: int, input: PassInput)
    requires i < |b.open|
    ensures Keeps(b, PassBeforeMark(env, b, i, bar, input))
  {
    hide Keeps, CloseWhere, CloseOne, TakeProfits, LossStops, Trail;
    KeepsSelf(b);
    CloseOneKeeps(env, b, i, bar, true);
    var a1 := if input.reverted then CloseOne(env, b, i, bar, true) else b;
    var a2 := TakeProfits(env, a1, KeyList(a1.open), bar, input.profit);
    ProfitsKeep(env, a1, KeyList(a1.open), bar, input.profit);
    KeepsChain(b, a1, a2);
    var a3 := CloseBook(env, a2, bar, TimeStop, true);
    CloseKeeps(env, a2, KeyList(a2.open), bar, TimeStop, true);
    KeepsChain(b, a2, a3);
    var a4 := LossStops(env, a3, bar);
    LossStopsKeep(env, a3, bar);
    KeepsChain(b, a3, a4);
    TrailKeeps(env, a4, KeyList(a4.open), bar);
    KeepsChain(b, a4, Trail(env, a4, KeyList(a4.open), bar));
  }
}
