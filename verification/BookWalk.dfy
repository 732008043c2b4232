/** The synthetic order book and the walk that prices an order against it
    (execution/order_book.py). */
module BookWalk {
  import opened Foundations

  datatype Depth = Shallow | Medium | Deep

  datatype Realism = Tight | Realistic | Academic

  datatype Config = Config(spreadBps: real, depth: Depth, volatilityFactor: real, realism: Realism)

  datatype Level = Level(price: real, quantity: real, orders: int)

  datatype Book = Book(bids: seq<Level>, asks: seq<Level>, bidVolume: real, askVolume: real, spreadBps: real)

  // ---- Generating a book ----

  function LevelCount(d: Depth): (n: nat) {
    match d case Shallow => 5 case Medium => 10 case Deep => 15
  }

  function VolumePerLevel(d: Depth): real {
    match d case Shallow => 100.0 case Medium => 250.0 case Deep => 500.0
  }

  function FixedDistance(d: Depth): real {
    match d case Shallow => 3.0 case Medium => 2.0 case Deep => 1.0
  }

  /** Distance between levels in basis points: the fixed one, or the spread shared out if larger. */
  function LevelDistance(d: Depth, spreadBps: real): real {
    Max(FixedDistance(d), spreadBps / LevelCount(d) as real)
  }

  function SpreadCap(r: Realism): real {
    match r case Tight => 2.0 case Realistic => 3.0 case Academic => 5.0
  }

  function CalculateSpread(c: Config, volatility: real): real {
    Min(c.spreadBps * (1.0 + volatility / 100.0 * c.volatilityFactor), c.spreadBps * SpreadCap(c.realism))
  }

  /** What the configuration check lets through. */
  predicate Accepted(c: Config) {
    c.spreadBps >= 0.5 && 0.5 <= c.volatilityFactor <= 2.0
  }

  /** Volatility widens the configured spread in proportion, and never past the cap, which is met exactly from
      a volatility of 100 * (cap - 1) / factor percent on. */
  lemma SpreadIsCapped(c: Config, volatility: real)
    requires Accepted(c) && volatility >= 0.0
    ensures var cap := match c.realism { case Tight => 2.0 case Realistic => 3.0 case Academic => 5.0 };
            var spread, grown := CalculateSpread(c, volatility), volatility * c.volatilityFactor;
            && c.spreadBps <= spread <= cap * c.spreadBps
            && (spread == cap * c.spreadBps <==> grown >= 100.0 * (cap - 1.0))
            && (grown <= 100.0 * (cap - 1.0) ==> spread * 100.0 == c.spreadBps * (100.0 + grown))
  {
    var grown := 1.0 + volatility / 100.0 * c.volatilityFactor;
    NotNegative(volatility, c.volatilityFactor);
    Hundredth(c.spreadBps, volatility, c.volatilityFactor);
    SpreadIs(c, volatility, grown);
    hide CalculateSpread;
    Bounded(c.spreadBps, grown, SpreadCap(c.realism));
  }

  lemma SpreadIs(c: Config, volatility: real, grown: real)
    requires grown == 1.0 + volatility / 100.0 * c.volatilityFactor
    ensures CalculateSpread(c, volatility) == Min(grown * c.spreadBps, SpreadCap(c.realism) * c.spreadBps)
  {}

  lemma Bounded(spread: real, grown: real, cap: real)
    requires spread > 0.0 && grown >= 1.0 && cap >= 1.0
    ensures spread <= Min(grown * spread, cap * spread) <= cap * spread
    ensures Min(grown * spread, cap * spread) == cap * spread <==> grown >= cap
    ensures grown <= cap ==> Min(grown * spread, cap * spread) == grown * spread
  {
    ProductOrder(spread, 1.0, grown);
    ProductOrder(spread, 1.0, cap);
    ProductOrder(spread, grown, cap);
    ProductOrder(spread, cap, grown);
  }

  lemma Hundredth(spread: real, volatility: real, factor: real)
    ensures var grown := 1.0 + volatility / 100.0 * factor;
            (grown - 1.0) * 100.0 == volatility * factor
            && grown * spread * 100.0 == spread * (100.0 + volatility * factor)
  {
    var grown := 1.0 + volatility / 100.0 * factor;
    assert grown * 100.0 == 100.0 + volatility * factor;
    assert grown * spread * 100.0 == spread * (grown * 100.0);
  }

  /** Price difference between neighbouring levels. */
  function Rung(d: Depth, mid: real, spreadBps: real): real {
    mid * LevelDistance(d, spreadBps) / 10000.0
  }

  predicate Rising(levels: seq<Level>) {
    forall i, j :: 0 <= i < j < |levels| ==> levels[i].price < levels[j].price
  }

  predicate Falling(levels: seq<Level>) {
    forall i, j :: 0 <= i < j < |levels| ==> levels[j].price < levels[i].price
  }

  /** One order for every whole fifty of quantity, at least one. */
  predicate InFifties(quantity: real, orders: int) {
    orders >= 1 && (orders > 1 ==> orders as real * 50.0 <= quantity) && quantity < (orders + 1) as real * 50.0
  }

  predicate Stocked(levels: seq<Level>) {
    forall i :: 0 <= i < |levels| ==> levels[i].quantity > 0.0 && InFifties(levels[i].quantity, levels[i].orders)
  }

  /** What the random factors drawn for the levels are between. */
  predicate Draws(draws: seq<real>, n: nat) {
    |draws| == n && forall i :: 0 <= i < n ==> 0.8 <= draws[i] <= 1.2
  }

  /** The levels climb (`up`) or descend by equal rungs, the first one rung from `best`. */
  ghost predicate Ladder(levels: seq<Level>, best: real, rung: real, up: bool) {
    forall i :: 0 <= i < |levels| ==>
      levels[i].price == if up then best + Steps(i + 1, rung) else best - Steps(i + 1, rung)
  }

  function Steps(n: nat, rung: real): real { n as real * rung }

  /** Share of the mode's volume that level `i` of `n` has before its draw: from all down towards 40%. */
  function Taper(i: nat, n: nat): real
    requires n > 0
  {
    1.0 - i as real / n as real * 0.6
  }

  ghost predicate Tapered(levels: seq<Level>, volume: real, draws: seq<real>) {
    |levels| <= |draws|
    && forall i :: 0 <= i < |levels| ==> levels[i].quantity == Sized(volume, i, |draws|, draws[i])
  }

  function Sized(volume: real, i: nat, n: nat, draw: real): real
    requires n > 0
  {
    Times(Times(volume, Taper(i, n)), draw)
  }

  function Times(a: real, b: real): real { a * b }

  /** Whatever is drawn, a level has between 32% and 120% of the mode's volume; with equal draws a level
      further from the mid price has less. */
  lemma WorseLevelsAreThinner(volume: real, i: nat, j: nat, n: nat, draw: real)
    requires volume > 0.0 && i < j < n && 0.8 <= draw <= 1.2
    ensures 0.32 * volume <= Sized(volume, j, n, draw) < Sized(volume, i, n, draw) <= 1.2 * volume
  {
    hide Times;
    TaperFalls(i, j, n);
    SizeIsBounded(volume, i, n, draw);
    SizeIsBounded(volume, j, n, draw);
    TimesGrows(volume, Taper(j, n), Taper(i, n), draw);
  }

  lemma TimesGrows(volume: real, x: real, y: real, draw: real)
    requires volume > 0.0 && x < y && draw > 0.0
    ensures Times(Times(volume, x), draw) < Times(Times(volume, y), draw)
  {
    assert Times(volume, x) < Times(volume, y);
  }

  lemma TaperFalls(i: nat, j: nat, n: nat)
    requires i < j < n
    ensures Taper(j, n) < Taper(i, n)
  {}

  lemma SizeIsBounded(volume: real, i: nat, n: nat, draw: real)
    requires volume > 0.0 && i < n && 0.8 <= draw <= 1.2
    ensures 0.32 * volume <= Sized(volume, i, n, draw) <= 1.2 * volume && Sized(volume, i, n, draw) > 0.0
  {
    hide Times;
    TaperIsBounded(i, n);
    Within(volume, 0.4, Taper(i, n), 1.0);
    Within(Times(volume, Taper(i, n)), 0.8, draw, 1.2);
  }

  lemma TaperIsBounded(i: nat, n: nat)
    requires i < n
    ensures 0.4 < Taper(i, n) <= 1.0
  {
    assert 0.0 <= i as real / n as real < 1.0;
  }

  lemma Within(b: real, low: real, x: real, high: real)
    requires b > 0.0 && low <= x <= high
    ensures low * b <= Times(b, x) <= high * b
  {
    ProductOrder(b, low, x);
    ProductOrder(b, x, high);
  }

  method Quantity(volume: real, i: nat, n: nat, draw: real) returns (q: real)
    requires i < n && volume > 0.0 && 0.8 <= draw <= 1.2
    ensures q == Sized(volume, i, n, draw) > 0.0
  {
    var multiplier := 1.0 - i as real / n as real * 0.6;
    q := volume * multiplier;
    q := q * draw;
    SizeIsBounded(volume, i, n, draw);
  }

  method OrderCount(quantity: real) returns (n: int)
    ensures InFifties(quantity, n)
  {
    var whole := if quantity >= 0.0 then (quantity / 50.0).Floor else -((-quantity / 50.0).Floor);
    n := if whole >= 1 then whole else 1;
  }

  method GenerateAskLevels(c: Config, best: real, mid: real, spreadBps: real,
      draws: seq<real>) returns (levels: seq<Level>)
    requires Draws(draws, LevelCount(c.depth))
    ensures |levels| == LevelCount(c.depth) && Stocked(levels) && Tapered(levels, VolumePerLevel(c.depth), draws)
    ensures Ladder(levels, best, Rung(c.depth, mid, spreadBps), true)
  {
    hide Steps, LevelDistance, Rung, Sized, InFifties;
    var n := LevelCount(c.depth);
    var distance := LevelDistance(c.depth, spreadBps);
    levels := [];
    for i := 0 to n
      invariant |levels| == i && Stocked(levels) && Tapered(levels, VolumePerLevel(c.depth), draws)
      invariant Ladder(levels, best, Rung(c.depth, mid, spreadBps), true)
    {
      var distanceBps := (i + 1) as real * distance;
      var price := best + mid * distanceBps / 10000.0;
      StepsAre(c.depth, i + 1, mid, spreadBps);
      var quantity := Quantity(VolumePerLevel(c.depth), i, n, draws[i]);
      var orders := OrderCount(quantity);
      levels := levels + [Level(price, quantity, orders)];
    }
  }

  method GenerateBidLevels(c: Config, best: real, mid: real, spreadBps: real,
      draws: seq<real>) returns (levels: seq<Level>)
    requires Draws(draws, LevelCount(c.depth))
    ensures |levels| == LevelCount(c.depth) && Stocked(levels) && Tapered(levels, VolumePerLevel(c.depth), draws)
    ensures Ladder(levels, best, Rung(c.depth, mid, spreadBps), false)
  {
    hide Steps, LevelDistance, Rung, Sized, InFifties;
    var n := LevelCount(c.depth);
    var distance := LevelDistance(c.depth, spreadBps);
    levels := [];
    for i := 0 to n
      invariant |levels| == i && Stocked(levels) && Tapered(levels, VolumePerLevel(c.depth), draws)
      invariant Ladder(levels, best, Rung(c.depth, mid, spreadBps), false)
    {
      var distanceBps := (i + 1) as real * distance;
      var price := best - mid * distanceBps / 10000.0;
      StepsAre(c.depth, i + 1, mid, spreadBps);
      var quantity := Quantity(VolumePerLevel(c.depth), i, n, draws[i]);
      var orders := OrderCount(quantity);
      levels := levels + [Level(price, quantity, orders)];
    }
  }

  lemma StepsAre(d: Depth, k: nat, mid: real, spreadBps: real)
    ensures mid * (k as real * LevelDistance(d, spreadBps)) / 10000.0 == Steps(k, Rung(d, mid, spreadBps))
  {
    hide LevelDistance;
    Regroup(k as real, mid, LevelDistance(d, spreadBps));
  }

  lemma Regroup(k: real, a: real, b: real)
    ensures a * (k * b) / 10000.0 == k * (a * b / 10000.0)
  {
    assert a * (k * b) == k * (a * b);
  }

  lemma StepsGrow(i: nat, j: nat, rung: real)
    requires i < j && rung > 0.0
    ensures Steps(0, rung) == 0.0 && Steps(i, rung) < Steps(j, rung)
  {
    ProductOrder(rung, i as real, j as real);
  }

  lemma LaddersClimb(levels: seq<Level>, best: real, rung: real, up: bool)
    requires Ladder(levels, best, rung, up) && rung > 0.0
    ensures up ==> Rising(levels) && forall i :: 0 <= i < |levels| ==> levels[i].price > best
    ensures !up ==> Falling(levels) && forall i :: 0 <= i < |levels| ==> levels[i].price < best
  {
    hide Steps;
    forall i | 0 <= i < |levels| ensures if up then levels[i].price > best else levels[i].price < best {
      StepsGrow(0, i + 1, rung);
    }
    forall i, j | 0 <= i < j < |levels|
      ensures if up then levels[i].price < levels[j].price else levels[j].price < levels[i].price
    {
      StepsGrow(i + 1, j + 1, rung);
    }
  }

  lemma RungIsPositive(d: Depth, mid: real, spreadBps: real)
    requires mid > 0.0
    ensures Rung(d, mid, spreadBps) > 0.0
  {
    assert LevelDistance(d, spreadBps) >= 1.0;
    assert mid * LevelDistance(d, spreadBps) > 0.0;
  }

  /** What the generator makes around a mid price: stocked ladders of equal rungs from half the spread on
      either side. */
  ghost predicate Generated(c: Config, mid: real, book: Book) {
    var half, rung := HalfSpread(mid, book.spreadBps), Rung(c.depth, mid, book.spreadBps);
    && |book.bids| == |book.asks| == LevelCount(c.depth) && Stocked(book.bids) && Stocked(book.asks)
    && Ladder(book.bids, mid - half, rung, false) && Ladder(book.asks, mid + half, rung, true)
  }

  /** Around a positive mid price asks strictly rise and bids strictly fall. */
  lemma GeneratedIsOrdered(c: Config, mid: real, book: Book)
    requires Generated(c, mid, book) && mid > 0.0
    ensures Rising(book.asks) && Falling(book.bids)
  {
    hide Ladder, Rising, Falling, Rung, HalfSpread;
    var half, rung := HalfSpread(mid, book.spreadBps), Rung(c.depth, mid, book.spreadBps);
    RungIsPositive(c.depth, mid, book.spreadBps);
    LaddersClimb(book.bids, mid - half, rung, false);
    LaddersClimb(book.asks, mid + half, rung, true);
  }

  method CreateOrderBook(c: Config, mid: real, volatility: real, bidDraws: seq<real>, askDraws: seq<real>)
    returns (book: Book)
    requires Draws(bidDraws, LevelCount(c.depth)) && Draws(askDraws, LevelCount(c.depth))
    ensures Generated(c, mid, book) && book.spreadBps == CalculateSpread(c, volatility)
    ensures Tapered(book.bids, VolumePerLevel(c.depth), bidDraws)
    ensures Tapered(book.asks, VolumePerLevel(c.depth), askDraws)
    ensures book.bidVolume == DepthOf(book.bids) > 0.0 && book.askVolume == DepthOf(book.asks) > 0.0
    ensures mid > 0.0 ==> Rising(book.asks) && Falling(book.bids)
    ensures mid > 0.0 ==>
              (book.bids[0].price < book.asks[0].price
               <==> book.spreadBps + 2.0 * LevelDistance(c.depth, book.spreadBps) > 0.0)
  {
    hide CalculateSpread, Rung, Ladder, Tapered, Rising, Falling, Stocked, Draws, DepthOf, LevelDistance, HalfSpread;
    var spreadBps := CalculateSpread(c, volatility);
    var half := HalfSpread(mid, spreadBps);
    var bids := GenerateBidLevels(c, mid - half, mid, spreadBps, bidDraws);
    var asks := GenerateAskLevels(c, mid + half, mid, spreadBps, askDraws);
    var bidVolume := TotalQuantity(bids);
    var askVolume := TotalQuantity(asks);
    book := Book(bids, asks, bidVolume, askVolume, spreadBps);
    if mid > 0.0 {
      GeneratedIsOrdered(c, mid, book);
      TopOfBook(c.depth, mid, spreadBps, bids, asks);
    }
  }

  /** The two sides of a generated book mirror each other about the mid price: level `i` of either is half the
      spread and i + 1 distances away, all in basis points of the mid price. */
  lemma SidesMirror(c: Config, mid: real, book: Book, i: nat)
    requires Generated(c, mid, book)
    requires i < match c.depth { case Shallow => 5 case Medium => 10 case Deep => 15 }
    ensures var (fixed, n) := match c.depth { case Shallow => (3.0, 5.0) case Medium => (2.0, 10.0)
                                              case Deep => (1.0, 15.0) };
            var distance := Max(fixed, book.spreadBps / n);
            && i < |book.bids| == |book.asks|
            && book.bids[i].price + book.asks[i].price == 2.0 * mid
            && (book.asks[i].price - mid) * 20000.0 == mid * (book.spreadBps + 2.0 * (i + 1) as real * distance)
  {
    hide Stocked, LevelDistance, HalfSpread, Steps, Rung, Max;
    var step := HalfSpread(mid, book.spreadBps) + Steps(i + 1, Rung(c.depth, mid, book.spreadBps));
    DistanceIs(c.depth, book.spreadBps);
    var (fixed, n) := match c.depth { case Shallow => (3.0, 5.0) case Medium => (2.0, 10.0) case Deep => (1.0, 15.0) };
    HalfAndSteps(c.depth, mid, book.spreadBps, i + 1, Max(fixed, book.spreadBps / n));
    assert book.asks[i].price - mid == step;
  }

  lemma DistanceIs(d: Depth, spreadBps: real)
    ensures var (fixed, n) := match d { case Shallow => (3.0, 5.0) case Medium => (2.0, 10.0)
                                        case Deep => (1.0, 15.0) };
            LevelDistance(d, spreadBps) == Max(fixed, spreadBps / n)
  {}

  lemma HalfAndSteps(d: Depth, mid: real, spreadBps: real, k: nat, distance: real)
    requires distance == LevelDistance(d, spreadBps)
    ensures (HalfSpread(mid, spreadBps) + Steps(k, Rung(d, mid, spreadBps))) * 20000.0
            == mid * (spreadBps + 2.0 * k as real * distance)
  {
    hide LevelDistance;
    assert HalfSpread(mid, spreadBps) * 20000.0 == mid * spreadBps;
    assert Steps(k, Rung(d, mid, spreadBps)) * 10000.0 == k as real * (mid * distance);
    DoubleSteps(mid, spreadBps, k as real, distance);
  }

  lemma DoubleSteps(mid: real, spreadBps: real, k: real, distance: real)
    ensures mid * (spreadBps + 2.0 * k * distance) == mid * spreadBps + 2.0 * (k * (mid * distance))
  {
    assert 2.0 * k * distance == 2.0 * (k * distance);
    assert k * (mid * distance) == mid * (k * distance);
  }

  /** With equal draws a side of a book holds 0.7 n + 0.3 levels' worth of volume: 380, 1825 and 5400 units in
      the three modes. */
  lemma NominalDepth(d: Depth, levels: seq<Level>, draws: seq<real>, draw: real)
    requires |levels| == |draws| == LevelCount(d) && Tapered(levels, VolumePerLevel(d), draws)
    requires forall i :: 0 <= i < |draws| ==> draws[i] == draw
    ensures DepthOf(levels) == draw * match d { case Shallow => 380.0 case Medium => 1825.0 case Deep => 5400.0 }
  {
    var n, v := LevelCount(d), VolumePerLevel(d);
    assert levels[..n] == levels;
    hide Tapered;
    DepthAddsUp(levels, v, draws, draw, n);
    assert Times(v, Worth(n as real, n as real)) == match d { case Shallow => 380.0 case Medium => 1825.0
                                                              case Deep => 5400.0 };
  }

  /** Levels' worth of volume on the first k of n levels. */
  function Worth(k: real, n: real): real
    requires n > 0.0
  {
    k - 0.3 * (k * (k - 1.0)) / n
  }

  lemma {:induction false} DepthAddsUp(levels: seq<Level>, volume: real, draws: seq<real>, draw: real, k: nat)
    requires k <= |levels| == |draws| && |draws| > 0 && Tapered(levels, volume, draws)
    requires forall i :: 0 <= i < |draws| ==> draws[i] == draw
    ensures DepthOf(levels[..k]) == Times(Times(volume, Worth(k as real, |draws| as real)), draw)
  {
    var n := |draws| as real;
    if k > 0 {
      hide Taper, Times, Worth;
      DepthAddsUp(levels, volume, draws, draw, k - 1);
      assert levels[..k][..k - 1] == levels[..k - 1];
      NextTaper(k, |draws|);
      TimesAdds(volume, Worth(k as real - 1.0, n), Taper(k - 1, |draws|), draw);
    } else {
      assert Worth(0.0, n) == 0.0;
      assert levels[..0] == [];
    }
  }

  lemma TimesAdds(volume: real, x: real, y: real, draw: real)
    ensures Times(Times(volume, x + y), draw) == Times(Times(volume, x), draw) + Times(Times(volume, y), draw)
  {
    assert volume * (x + y) == volume * x + volume * y;
  }

  lemma NextTaper(k: nat, n: nat)
    requires 0 < k <= n
    ensures Worth(k as real, n as real) == Worth(k as real - 1.0, n as real) + Taper(k - 1, n)
  {
    var x, m := k as real, n as real;
    var t := (x - 1.0) / m;
    assert x * (x - 1.0) / m == x * t && (x - 1.0) * (x - 2.0) / m == (x - 2.0) * t;
    assert 0.3 * (x * (x - 1.0)) / m == 0.3 * (x * t);
  }

  function HalfSpread(mid: real, spreadBps: real): real { mid * (spreadBps / 10000.0) / 2.0 }

  lemma TopOfBook(d: Depth, mid: real, spreadBps: real, bids: seq<Level>, asks: seq<Level>)
    requires mid > 0.0 && |bids| > 0 && |asks| > 0
    requires Ladder(bids, mid - HalfSpread(mid, spreadBps), Rung(d, mid, spreadBps), false)
    requires Ladder(asks, mid + HalfSpread(mid, spreadBps), Rung(d, mid, spreadBps), true)
    ensures bids[0].price < asks[0].price <==> spreadBps + 2.0 * LevelDistance(d, spreadBps) > 0.0
  {
    hide LevelDistance;
    assert asks[0].price - bids[0].price
           == 2.0 * HalfSpread(mid, spreadBps) + 2.0 * Steps(1, Rung(d, mid, spreadBps));
    SpreadSign(mid, spreadBps, LevelDistance(d, spreadBps));
  }

  lemma SpreadSign(mid: real, spreadBps: real, distance: real)
    requires mid > 0.0
    ensures 2.0 * HalfSpread(mid, spreadBps) + 2.0 * Steps(1, mid * distance / 10000.0) > 0.0
            <==> spreadBps + 2.0 * distance > 0.0
  {
    var k := mid / 10000.0;
    assert mid * (spreadBps / 10000.0) == k * spreadBps;
    assert mid * distance / 10000.0 == k * distance;
    assert Steps(1, mid * distance / 10000.0) == k * distance;
    var all := spreadBps + 2.0 * distance;
    assert k * spreadBps + 2.0 * (k * distance) == k * all;
    ProductOrder(k, 0.0, all);
    ProductOrder(k, all, 0.0);
  }

  /** Total quantity of the levels, from the back. */
  function DepthOf(levels: seq<Level>): real {
    if |levels| == 0 then 0.0 else DepthOf(levels[..|levels| - 1]) + levels[|levels| - 1].quantity
  }

  method TotalQuantity(levels: seq<Level>) returns (total: real)
    ensures total == DepthOf(levels)
    ensures Stocked(levels) && |levels| > 0 ==> total > 0.0
  {
    total := 0.0;
    for i := 0 to |levels|
      invariant total == DepthOf(levels[..i])
      invariant Stocked(levels) ==> if i == 0 then total == 0.0 else total > 0.0
    {
      assert levels[..i + 1][..i] == levels[..i];
      total := total + levels[i].quantity;
    }
    assert levels[..|levels|] == levels;
  }

  // ---- Ways to fill an order ----

  /** An allocation takes from every level something between nothing and all of it. */
  ghost predicate Feasible(levels: seq<Level>, take: seq<real>) {
    |take| == |levels| && forall i :: 0 <= i < |take| ==> 0.0 <= take[i] <= levels[i].quantity
  }

  /** What an allocation costs (or earns, against bids). */
  function Cost(levels: seq<Level>, take: seq<real>): real
    requires |take| == |levels|
  {
    if |levels| == 0 then 0.0 else
      var n := |levels| - 1;
      Cost(levels[..n], take[..n]) + take[n] * levels[n].price
  }

  /** What the walk takes: each level gives what is still missing, as far as it goes. */
  function Walk(levels: seq<Level>, q: real): (take: seq<real>)
    ensures |take| == |levels|
  {
    if |levels| == 0 then [] else
      var n := |levels| - 1;
      Walk(levels[..n], q) + [Min(Max(q - DepthOf(levels[..n]), 0.0), levels[n].quantity)]
  }

  predicate NonNegative(levels: seq<Level>) {
    forall i :: 0 <= i < |levels| ==> levels[i].quantity >= 0.0
  }

  lemma WalkOfNothing(levels: seq<Level>, q: real)
    requires levels == []
    ensures DepthOf(levels) == 0.0 && Walk(levels, q) == [] && Cost(levels, Walk(levels, q)) == 0.0
  {}

  lemma WalkLast(levels: seq<Level>, q: real)
    requires |levels| > 0
    ensures var n := |levels| - 1;
            && Walk(levels, q)[..n] == Walk(levels[..n], q)
            && Walk(levels, q)[n] == Min(Max(q - DepthOf(levels[..n]), 0.0), levels[n].quantity)
            && DepthOf(levels) == DepthOf(levels[..n]) + levels[n].quantity
  {}

  lemma SumLast(xs: seq<real>)
    requires |xs| > 0
    ensures Sum(xs) == Sum(xs[..|xs| - 1]) + xs[|xs| - 1]
  {}

  /** The walk is feasible and fills the smaller of the order and the book. */
  lemma WalkFills(levels: seq<Level>, q: real)
    requires NonNegative(levels) && q >= 0.0
    ensures Feasible(levels, Walk(levels, q)) && Sum(Walk(levels, q)) == Min(q, DepthOf(levels))
    ensures DepthOf(levels) >= 0.0
  {
    hide Walk, DepthOf, Sum;
    WalkIsFeasible(levels, q);
    WalkSums(levels, q);
  }

  lemma {:induction false} WalkIsFeasible(levels: seq<Level>, q: real)
    requires NonNegative(levels)
    ensures Feasible(levels, Walk(levels, q))
  {
    if |levels| > 0 {
      hide Walk, DepthOf;
      var n, w := |levels| - 1, Walk(levels, q);
      WalkIsFeasible(levels[..n], q);
      WalkLast(levels, q);
      forall i | 0 <= i < n ensures 0.0 <= w[i] <= levels[i].quantity {
        assert w[i] == w[..n][i] && levels[..n][i] == levels[i];
      }
    }
  }

  lemma {:induction false} WalkSums(levels: seq<Level>, q: real)
    requires NonNegative(levels) && q >= 0.0
    ensures Sum(Walk(levels, q)) == Min(q, DepthOf(levels)) && DepthOf(levels) >= 0.0
  {
    if |levels| > 0 {
      hide Walk, DepthOf, Sum;
      WalkSums(levels[..|levels| - 1], q);
      WalkLast(levels, q);
      SumLast(Walk(levels, q));
    }
  }

  // ---- The walk is the cheapest fill ----

  predicate NeverFalls(levels: seq<Level>) {
    forall i, j :: 0 <= i < j < |levels| ==> levels[i].price <= levels[j].price
  }

  /** Price of the last level the walk reaches for: beyond it nothing is taken, before it all is. */
  function Marginal(levels: seq<Level>, q: real): real
    requires |levels| > 0
  {
    var n := |levels| - 1;
    if n > 0 && q <= DepthOf(levels[..n]) then Marginal(levels[..n], q) else levels[n].price
  }

  /** What is left of an allocation when every unit is paid back at price `m`. */
  function Excess(levels: seq<Level>, take: seq<real>, m: real): real
    requires |take| == |levels|
  {
    Cost(levels, take) - m * Sum(take)
  }

  /** What `t` units at price `p` cost above price `m`. */
  function Above(t: real, p: real, m: real): real { t * (p - m) }

  lemma AboveSigns(t: real, p: real, m: real)
    ensures Above(0.0, p, m) == 0.0 && (p == m ==> Above(t, p, m) == 0.0)
    ensures t >= 0.0 && p >= m ==> Above(t, p, m) >= 0.0
  {}

  lemma AboveFalls(t: real, t': real, p: real, m: real)
    requires t <= t' && p <= m
    ensures Above(t, p, m) >= Above(t', p, m)
  {
    var more, over := t' - t, m - p;
    NotNegative(more, over);
    assert t' == t + more && p == m - over;
    assert Above(t, p, m) == -(t * over) && Above(t', p, m) == -(t * over) - more * over;
  }

  lemma ExcessAppend(levels: seq<Level>, take: seq<real>, m: real)
    requires |take| == |levels| > 0
    ensures var n := |levels| - 1;
            Excess(levels, take, m) == Excess(levels[..n], take[..n], m) + Above(take[n], levels[n].price, m)
  {
    var n := |levels| - 1;
    var s, t, p := Sum(take[..n]), take[n], levels[n].price;
    assert m * (s + t) == m * s + m * t;
    assert t * (p - m) == t * p - m * t;
  }

  /** Against levels no dearer than `m`, taking everything leaves least. */
  lemma {:induction false} TakingAllIsBest(levels: seq<Level>, take: seq<real>, q: real, m: real)
    requires Feasible(levels, take) && q >= DepthOf(levels)
    requires forall i :: 0 <= i < |levels| ==> levels[i].price <= m
    ensures Excess(levels, take, m) >= Excess(levels, Walk(levels, q), m)
  {
    if |levels| > 0 {
      hide Excess, Walk, DepthOf, Above;
      var n, w := |levels| - 1, Walk(levels, q);
      WalkLast(levels, q);
      assert levels[n].quantity >= take[n] >= 0.0;
      TakingAllIsBest(levels[..n], take[..n], q, m);
      ExcessAppend(levels, take, m);
      ExcessAppend(levels, w, m);
      AboveFalls(take[n], w[n], levels[n].price, m);
    }
  }

  /** Paying units back at the marginal price, no allocation whatever leaves less than the walk. */
  lemma {:induction false} WalkLeavesLeast(levels: seq<Level>, take: seq<real>, q: real)
    requires |levels| > 0 && Feasible(levels, take) && NeverFalls(levels) && q >= 0.0
    ensures Excess(levels, take, Marginal(levels, q)) >= Excess(levels, Walk(levels, q), Marginal(levels, q))
    ensures levels[0].price <= Marginal(levels, q) <= levels[|levels| - 1].price
  {
    hide Excess, Walk, DepthOf, Above;
    var n, w, m := |levels| - 1, Walk(levels, q), Marginal(levels, q);
    WalkLast(levels, q);
    ExcessAppend(levels, take, m);
    ExcessAppend(levels, w, m);
    AboveSigns(take[n], levels[n].price, m);
    AboveSigns(w[n], levels[n].price, m);
    if n > 0 && q <= DepthOf(levels[..n]) {
      WalkLeavesLeast(levels[..n], take[..n], q);
      assert levels[..n][n - 1].price <= levels[n].price;
      assert levels[n].quantity >= 0.0 && w[n] == 0.0;
    } else if n > 0 {
      assert m == levels[n].price;
      TakingAllIsBest(levels[..n], take[..n], q, m);
    } else {
      assert take[..n] == w[..n];
    }
  }

  /** A buy is filled at the least cost any allocation of that quantity has. */
  lemma WalkIsCheapest(levels: seq<Level>, take: seq<real>, q: real)
    requires Feasible(levels, take) && NeverFalls(levels) && q >= 0.0
    requires Sum(take) == Min(q, DepthOf(levels))
    ensures Cost(levels, Walk(levels, q)) <= Cost(levels, take)
  {
    hide Walk, DepthOf, Cost, Sum, Marginal;
    assert NonNegative(levels) by {
      forall i | 0 <= i < |levels| ensures levels[i].quantity >= 0.0 { assert 0.0 <= take[i]; }
    }
    WalkFills(levels, q);
    if |levels| == 0 { assert take == Walk(levels, q); }
    if |levels| > 0 { WalkLeavesLeast(levels, take, q); }
  }

  /** Average cost of what the walk takes. */
  function Average(levels: seq<Level>, q: real): real
    requires Sum(Walk(levels, q)) != 0.0
  {
    Cost(levels, Walk(levels, q)) / Sum(Walk(levels, q))
  }

  /** A larger order never pays less per unit, and none pays less than the first level asks or more
      than the last level reached. */
  lemma AverageRises(levels: seq<Level>, q: real, larger: real)
    requires NonNegative(levels) && NeverFalls(levels) && 0.0 <= q <= larger
    requires |levels| > 0 && Sum(Walk(levels, q)) > 0.0
    ensures Sum(Walk(levels, larger)) >= Sum(Walk(levels, q))
    ensures levels[0].price <= Average(levels, q) <= Marginal(levels, q)
    ensures Average(levels, q) <= Average(levels, larger)
  {
    hide Walk, DepthOf, Sum, Marginal, Cost;
    WalkFills(levels, q);
    WalkFills(levels, larger);
    var w, w' := Walk(levels, q), Walk(levels, larger);
    var c, f, m := Cost(levels, w), Sum(w), Marginal(levels, q);
    WalkLeavesLeast(levels, w', q);
    var none := seq(|levels|, _ => 0.0);
    TakingNone(levels, none);
    WalkLeavesLeast(levels, none, q);
    assert m * 0.0 == 0.0;
    AtLeastFirst(levels, w);
    Slopes(c, f, m, Cost(levels, w'), Sum(w'));
    Quotient(c, f, levels[0].price, m);
  }

  lemma {:induction false} TakingNone(levels: seq<Level>, none: seq<real>)
    requires |none| == |levels| && forall i :: 0 <= i < |none| ==> none[i] == 0.0
    ensures Cost(levels, none) == 0.0 && Sum(none) == 0.0
  {
    if |levels| > 0 { TakingNone(levels[..|levels| - 1], none[..|levels| - 1]); }
  }

  lemma {:induction false} AtLeastFirst(levels: seq<Level>, take: seq<real>)
    requires Feasible(levels, take) && NeverFalls(levels)
    ensures |levels| > 0 ==> Cost(levels, take) >= levels[0].price * Sum(take)
  {
    if |levels| > 0 {
      hide Above;
      var n, p := |levels| - 1, levels[0].price;
      AtLeastFirst(levels[..n], take[..n]);
      AboveSigns(take[n], levels[n].price, p);
      ExcessAppend(levels, take, p);
      assert n > 0 ==> levels[..n][0] == levels[0];
      assert n == 0 ==> Excess(levels[..n], take[..n], p) == 0.0 - p * 0.0;
    }
  }

  lemma Slopes(c: real, f: real, m: real, c': real, f': real)
    requires 0.0 < f <= f' && c <= m * f && c' - m * f' >= c - m * f
    ensures c / f <= c' / f'
  {
    var a := c / f;
    assert c == a * f;
    ProductOrder(f, a, m);
    assert (m - a) * (f' - f) >= 0.0;
    assert (m - a) * (f' - f) == m * f' - m * f - a * f' + a * f;
    Quotient(c', f', a, c' / f');
  }

  lemma Quotient(c: real, f: real, low: real, high: real)
    requires f > 0.0 && low * f <= c <= high * f
    ensures low <= c / f <= high
  {
    var a := c / f;
    assert c == a * f;
    ProductOrder(f, low, a);
    ProductOrder(f, a, high);
  }

  // ---- Sells: the same book with prices negated ----

  function Mirror(levels: seq<Level>): (r: seq<Level>)
    ensures |r| == |levels|
    ensures forall i :: 0 <= i < |r| ==> r[i] == levels[i].(price := -levels[i].price)
  {
    seq(|levels|, i requires 0 <= i < |levels| => levels[i].(price := -levels[i].price))
  }

  lemma {:induction false} MirrorNegates(levels: seq<Level>, take: seq<real>, q: real)
    requires |take| == |levels|
    ensures Cost(Mirror(levels), take) == -Cost(levels, take)
    ensures DepthOf(Mirror(levels)) == DepthOf(levels) && Walk(Mirror(levels), q) == Walk(levels, q)
  {
    if |levels| > 0 {
      var n := |levels| - 1;
      MirrorNegates(levels[..n], take[..n], q);
      assert Mirror(levels)[..n] == Mirror(levels[..n]);
    }
  }

  /** A sell is filled for the greatest proceeds any allocation of that quantity has, and a larger one
      never earns more per unit. */
  lemma WalkEarnsMost(levels: seq<Level>, take: seq<real>, q: real)
    requires Feasible(levels, take) && Falling(levels) && q >= 0.0
    requires Sum(take) == Min(q, DepthOf(levels))
    ensures Cost(levels, Walk(levels, q)) >= Cost(levels, take)
  {
    var m := Mirror(levels);
    MirrorNegates(levels, take, q);
    MirrorNegates(levels, Walk(levels, q), q);
    WalkIsCheapest(m, take, q);
  }

  lemma AverageFalls(levels: seq<Level>, q: real, larger: real)
    requires NonNegative(levels) && Falling(levels) && 0.0 <= q <= larger
    requires |levels| > 0 && Sum(Walk(levels, q)) > 0.0
    ensures Sum(Walk(levels, larger)) >= Sum(Walk(levels, q))
    ensures Average(levels, larger) <= Average(levels, q) <= levels[0].price
  {
    hide Walk, DepthOf, Cost, Sum, Marginal;
    var m := Mirror(levels);
    MirrorNegates(levels, Walk(levels, q), q);
    MirrorNegates(levels, Walk(levels, larger), larger);
    AverageRises(m, q, larger);
    NegatedQuotient(Cost(levels, Walk(levels, q)), Sum(Walk(levels, q)));
    NegatedQuotient(Cost(levels, Walk(levels, larger)), Sum(Walk(levels, larger)));
  }

  lemma NegatedQuotient(c: real, f: real)
    requires f > 0.0
    ensures (-c) / f == -(c / f)
  {
    var a := c / f;
    assert c == a * f;
    assert -c == (-a) * f;
  }

  // ---- Pricing an order ----

  datatype Estimate =
    | Quote(price: real, filled: real, impactBps: real)
    | NoLevels        // the book side is empty: IndexError
    | ZeroStart       // something is filled from a first price of zero: ZeroDivisionError

  function Side(book: Book, buy: bool): seq<Level> { if buy then book.asks else book.bids }

  method EstimateExecutionPrice(book: Book, buy: bool, quantity: real) returns (e: Estimate)
    requires NonNegative(book.asks) && NonNegative(book.bids)
    ensures e.NoLevels? <==> Side(book, buy) == []
    ensures var levels := Side(book, buy);
            var w := Walk(levels, quantity);
            levels != [] ==>
              if quantity <= 0.0 || DepthOf(levels) == 0.0 then e == Quote(levels[0].price, 0.0, 0.0)
              else if levels[0].price == 0.0 then e == ZeroStart
              else Sum(w) > 0.0
                   && e == Quote(Average(levels, quantity), Min(quantity, DepthOf(levels)),
                                 Abs(Average(levels, quantity) - levels[0].price) / levels[0].price * 10000.0)
  {
    hide Walk, DepthOf, Cost, Sum;
    var levels := if buy then book.asks else book.bids;
    if |levels| == 0 { return NoLevels; }
    var start := levels[0].price;
    var remaining, cost, filled := quantity, 0.0, 0.0;
    var i := 0;
    WalkOfNothing(levels[..0], quantity);
    while i < |levels| && remaining > 0.0
      invariant i <= |levels|
      invariant quantity <= 0.0 ==> i == 0 && remaining == quantity && filled == 0.0
      invariant quantity > 0.0 ==> filled == Min(quantity, DepthOf(levels[..i])) && remaining == quantity - filled
      invariant quantity > 0.0 ==> cost == Cost(levels[..i], Walk(levels[..i], quantity)) && filled >= 0.0
    {
      var fill := Min(remaining, levels[i].quantity);
      WalkExtends(levels, i, quantity);
      cost := cost + fill * levels[i].price;
      filled := filled + fill;
      remaining := remaining - fill;
      i := i + 1;
    }
    if quantity > 0.0 {
      WalkStops(levels, i, quantity);
      WalkFills(levels, quantity);
      assert i == |levels| ==> levels[..i] == levels;
      assert filled == Min(quantity, DepthOf(levels)) == Sum(Walk(levels, quantity));
    }
    if filled > 0.0 {
      if start == 0.0 { return ZeroStart; }
      var average := cost / filled;
      e := Quote(average, filled, Abs(average - start) / start * 10000.0);
    } else {
      e := Quote(start, 0.0, 0.0);
    }
  }

  lemma WalkExtends(levels: seq<Level>, i: nat, q: real)
    requires i < |levels|
    ensures DepthOf(levels[..i + 1]) == DepthOf(levels[..i]) + levels[i].quantity
    ensures var t := Min(Max(q - DepthOf(levels[..i]), 0.0), levels[i].quantity);
            Cost(levels[..i + 1], Walk(levels[..i + 1], q))
            == Cost(levels[..i], Walk(levels[..i], q)) + t * levels[i].price
  {
    hide Walk, DepthOf, Cost;
    var more := levels[..i + 1];
    assert more[..i] == levels[..i];
    WalkLast(more, q);
    CostLast(more, Walk(more, q));
  }

  lemma CostLast(levels: seq<Level>, take: seq<real>)
    requires |take| == |levels| > 0
    ensures var n := |levels| - 1; Cost(levels, take) == Cost(levels[..n], take[..n]) + take[n] * levels[n].price
  {}

  /** Once the order is filled, the levels further on add nothing. */
  lemma {:induction false} WalkStops(levels: seq<Level>, i: nat, q: real)
    requires i <= |levels| && NonNegative(levels) && (i == |levels| || q <= DepthOf(levels[..i]))
    ensures Cost(levels[..i], Walk(levels[..i], q)) == Cost(levels, Walk(levels, q))
    ensures DepthOf(levels[..i]) <= DepthOf(levels)
    decreases |levels| - i
  {
    if i == |levels| {
      assert levels[..i] == levels;
    } else {
      WalkExtends(levels, i, q);
      WalkStops(levels, i + 1, q);
    }
  }

  /** Against every book generated around a positive mid price, the walk is a buyer's cheapest and a
      seller's best fill. */
  lemma GeneratedBooksAreWalkedBest(c: Config, mid: real, book: Book, buy: bool, take: seq<real>, q: real)
    requires Generated(c, mid, book) && mid > 0.0 && q >= 0.0
    requires Feasible(Side(book, buy), take) && Sum(take) == Min(q, DepthOf(Side(book, buy)))
    ensures var best := Cost(Side(book, buy), Walk(Side(book, buy), q));
            if buy then best <= Cost(book.asks, take) else best >= Cost(book.bids, take)
  {
    hide Walk, DepthOf, Cost, Sum, Generated;
    GeneratedIsOrdered(c, mid, book);
    if buy { WalkIsCheapest(book.asks, take, q); } else { WalkEarnsMost(book.bids, take, q); }
  }
}
