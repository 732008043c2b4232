/** Execution in slices (execution/algo_executor.py): the time-weighted and the volume-weighted loop,
    and why they fill the same quantity. The square root of the impact model is any function. */
module Slicing {
  import opened Foundations

  datatype Config = Config(numSlices: nat, cap: real, impactBps: real, root: real -> real)

  datatype Slice = Slice(index: nat, qty: real, price: real, participation: real)

  /** `impact` is missing where the program divides by a price of zero. */
  datatype Result = Result(
    target: real, filled: real, average: real, slices: seq<Slice>, impact: Option<real>, complete: bool)

  datatype Outcome = Done(result: Result) | ZeroSlices

  const BARS: nat := 78

  function BarVolume(adv: real): real { adv / BARS as real }

  /** Volume of `n` bars. */
  function Volume(n: nat, adv: real): real { n as real * BarVolume(adv) }

  /** What the participation cap lets through in `n` bars. */
  function Through(n: nat, adv: real, cap: real): real { Volume(n, adv) * cap }

  /** Volume expected in the bar of a slice of weight `w`. */
  function Expected(n: nat, adv: real, w: real): real { BarVolume(adv) * w * n as real }

  lemma ExpectedIsShare(n: nat, adv: real, w: real)
    requires n > 0
    ensures Expected(n, adv, w) == Volume(n, adv) * w
    ensures (Volume(n, adv) > 0.0 <==> adv > 0.0) && (w == 0.0 ==> Expected(n, adv, w) == 0.0)
  {
    var v, m := BarVolume(adv), n as real;
    assert v * w * m == m * v * w;
    ProductSign(v, m);
    assert v * m == m * v;
  }

  /** What slices of total weight one would fill before anything is trimmed to the order: the order, or what
      the participation cap lets through, whatever the sign of volume and cap. */
  function Uncut(total: real, n: nat, adv: real, cap: real): real {
    if total <= 0.0 then 0.0
    else if adv > 0.0 then Max(0.0, Min(total, Through(n, adv, cap)))
    else if cap < 1.0 then Max(0.0, Through(n, adv, cap))
    else total
  }

  /** The quantity an order can be filled for in `n` slices. */
  function Executable(total: real, n: nat, adv: real, cap: real): real {
    Min(Max(0.0, total), Uncut(total, n, adv, cap))
  }

  /** In the everyday case: the order, or what the cap lets through of the volume of `n` bars. */
  lemma ExecutableIsCapped(total: real, n: nat, adv: real, cap: real)
    requires n > 0 && total > 0.0 && adv > 0.0 && cap > 0.0
    ensures Executable(total, n, adv, cap) == Uncut(total, n, adv, cap) == Min(total, Through(n, adv, cap))
  {
    Positive(n as real, BarVolume(adv));
    Positive(Volume(n, adv), cap);
  }

  function Quantities(slices: seq<Slice>): (r: seq<real>)
    ensures |r| == |slices|
    ensures forall i :: 0 <= i < |slices| ==> r[i] == slices[i].qty
  {
    seq(|slices|, i requires 0 <= i < |slices| => slices[i].qty)
  }

  /** Slice `i` takes the share `w[i]` of the quantity. */
  ghost predicate Shared(slices: seq<Slice>, uncut: real, w: seq<real>) {
    |slices| <= |w| && forall i :: 0 <= i < |slices| ==> slices[i].qty == Part(uncut, w[i])
  }

  /** What slice `i` takes: its share, or what is left of the order. */
  function Taken(uncut: real, total: real, w: seq<real>, i: nat): real
    requires i < |w|
  {
    Min(Part(uncut, w[i]), total - Part(uncut, Sum(w[..i])))
  }

  ghost predicate Taking(slices: seq<Slice>, uncut: real, total: real, w: seq<real>) {
    |slices| <= |w| && forall i :: 0 <= i < |slices| ==> slices[i].qty == Taken(uncut, total, w, i)
  }

  /** Number of leading weights that are positive: a loop ends at the first bar without volume. */
  function Reach(w: seq<real>): (n: nat)
    ensures n <= |w| && (forall i :: 0 <= i < n ==> w[i] > 0.0) && (n < |w| ==> w[n] <= 0.0)
  {
    if |w| == 0 || w[0] <= 0.0 then 0 else 1 + Reach(w[1..])
  }

  /** What a loop over these weights fills. */
  function Filled(uncut: real, total: real, w: seq<real>): real {
    if uncut <= 0.0 then 0.0 else Min(total, Part(uncut, Sum(w[..Reach(w)])))
  }

  /** What a loop promises of its result. */
  ghost predicate Fills(c: Config, buy: bool, price: real, uncut: real, w: seq<real>, scales: seq<real>, adv: real,
                        r: Result) {
    && r.filled == Sum(Quantities(r.slices)) == Filled(uncut, r.target, w)
    && Taking(r.slices, uncut, r.target, w) && Moved(c, buy, price, r.slices, scales)
    && Partaking(r.slices, r.target, |w|, adv)
    && (uncut <= 0.0 ==> r.slices == [])
    && (Weights(w) && 0.0 < uncut <= r.target ==> |r.slices| == |w| && Shared(r.slices, uncut, w))
    && (r.filled > 0.0 ==> r.average * r.filled == CostOf(r.slices))
    && (r.impact.Some? ==> r.impact.value * price == Abs(r.average - price) * 10000.0)
    && (Worsening(c, price) ==> Adverse(buy, price, r.average))
  }

  function At(price: real, qty: real): real { price * qty }

  function Value(s: Slice): real { s.qty * s.price }

  /** What a list of slices costs. */
  function CostOf(slices: seq<Slice>): real {
    if |slices| == 0 then 0.0 else CostOf(slices[..|slices| - 1]) + Value(slices[|slices| - 1])
  }

  function Part(filled: real, w: real): real { filled * w }

  /** A price at or beyond the reference, against the order. */
  predicate Adverse(buy: bool, reference: real, price: real) {
    if buy then reference <= price else price <= reference
  }

  /** Impact only ever worsens the price. */
  ghost predicate Worsening(c: Config, price: real) {
    c.impactBps >= 0.0 && price >= 0.0 && forall x :: x >= 0.0 ==> c.root(x) >= 0.0
  }

  predicate Weights(w: seq<real>) {
    Sum(w) == 1.0 && forall i :: 0 <= i < |w| ==> w[i] > 0.0
  }

  /** Equal shares, as the time-weighted loop uses them. */
  function Even(n: nat): seq<real>
    requires n > 0
  {
    seq(n, _ => 1.0 / n as real)
  }

  /** Each slice is off the reference price by the impact in basis points, weighed by its scale and by the root
      of the part of the slices begun: upwards for a buy and downwards for a sell. */
  ghost predicate Moved(c: Config, buy: bool, price: real, slices: seq<Slice>, scales: seq<real>) {
    && |slices| <= |scales|
    && forall i :: 0 <= i < |slices| ==>
         var moved := price * c.impactBps * scales[i] * c.root((i + 1) as real / |scales| as real);
         slices[i].index == i && (slices[i].price - price) * 10000.0 == if buy then moved else -moved
  }

  /** Every slice of a loop reports the participation the whole order would have, were it not capped. */
  ghost predicate Partaking(slices: seq<Slice>, total: real, n: nat, adv: real) {
    forall i :: 0 <= i < |slices| ==>
      if adv > 0.0 then slices[i].participation * Volume(n, adv) == total else slices[i].participation == 1.0
  }

  // ---- Prices ----

  function Shifted(buy: bool, price: real, multiplier: real): real {
    if buy then price * (1.0 + multiplier) else price * (1.0 - multiplier)
  }

  /** Impact on slice `i` of `n`; `scale` weighs it by how thin the slice's bar is. */
  function Impact(c: Config, i: nat, n: nat, scale: real): real
    requires n > 0
  {
    c.impactBps * 0.0001 * scale * c.root((i + 1) as real / n as real)
  }

  function PriceOf(c: Config, buy: bool, price: real, i: nat, n: nat, scale: real): real
    requires n > 0
  {
    Shifted(buy, price, Impact(c, i, n, scale))
  }

  /** A bar with less than average volume has more impact, at most 1 / 0.3 times as much. */
  function VolumeScale(w: real, n: nat): real { 1.0 / Max(w * n as real, 0.3) }

  /** Every slice has its own price. */
  ghost predicate Priced(c: Config, buy: bool, price: real, slices: seq<Slice>, scales: seq<real>) {
    && |slices| <= |scales|
    && forall i :: 0 <= i < |slices| ==>
         slices[i].index == i && slices[i].price == PriceOf(c, buy, price, i, |scales|, scales[i])
  }

  function Ones(n: nat): (r: seq<real>)
    ensures |r| == n && forall i :: 0 <= i < n ==> r[i] == 1.0
  {
    seq(n, _ => 1.0)
  }

  function VolumeScales(w: seq<real>): (r: seq<real>)
    ensures |r| == |w|
    ensures forall i :: 0 <= i < |w| ==> r[i] == VolumeScale(w[i], |w|) == 1.0 / Max(w[i] * |w| as real, 0.3)
  {
    seq(|w|, i requires 0 <= i < |w| => VolumeScale(w[i], |w|))
  }

  /** The price of slice `i` of `n` is off the reference by the impact in basis points, weighed by the scale
      and by the root of the part of the slices begun; upwards for a buy and downwards for a sell. */
  lemma ImpactMovesThePrice(c: Config, buy: bool, price: real, i: nat, n: nat, scale: real)
    requires n > 0
    ensures var moved := price * c.impactBps * scale * c.root((i + 1) as real / n as real);
            (PriceOf(c, buy, price, i, n, scale) - price) * 10000.0 == if buy then moved else -moved
  {
    var root := c.root((i + 1) as real / n as real);
    var m := Impact(c, i, n, scale);
    assert m * 10000.0 == c.impactBps * scale * root by { TenThousandth(c.impactBps, scale, root); }
    assert PriceOf(c, buy, price, i, n, scale) - price == if buy then price * m else -(price * m);
    hide Impact, PriceOf, Shifted;
    Regroup(price, m, c.impactBps, scale, root);
  }

  lemma PricedMoves(c: Config, buy: bool, price: real, slices: seq<Slice>, scales: seq<real>)
    requires Priced(c, buy, price, slices, scales)
    ensures Moved(c, buy, price, slices, scales)
  {
    hide PriceOf;
    forall i | 0 <= i < |slices| { ImpactMovesThePrice(c, buy, price, i, |scales|, scales[i]); }
  }

  lemma PartakingMore(slices: seq<Slice>, s: Slice, total: real, n: nat, adv: real)
    requires Partaking(slices, total, n, adv)
    requires if adv > 0.0 then s.participation * Volume(n, adv) == total else s.participation == 1.0
    ensures Partaking(slices + [s], total, n, adv)
  {
    hide Volume;
  }

  lemma TenThousandth(a: real, b: real, r: real)
    ensures a * 0.0001 * b * r * 10000.0 == a * b * r
  {
    assert a * 0.0001 * b * r == a * b * r * 0.0001;
  }

  lemma Regroup(price: real, m: real, a: real, b: real, r: real)
    requires m * 10000.0 == a * b * r
    ensures price * m * 10000.0 == price * a * b * r
  {
    assert price * m * 10000.0 == price * (m * 10000.0);
    assert price * (a * b * r) == price * a * b * r;
  }

  lemma Relative(d: real, price: real, bps: real)
    requires price > 0.0 && d * 10000.0 == price * bps
    ensures d / price * 10000.0 == bps
  {
    var q := d / price;
    assert q * 10000.0 * price == d * 10000.0;
    Divides(q * 10000.0, bps, price);
  }

  /** Where the reference price, the impact, the scale and the root are positive every slice is strictly worse
      than the reference, and the last of equal slices, where the root is 1, by exactly the configured impact. */
  lemma ImpactIsFelt(c: Config, buy: bool, price: real, slices: seq<Slice>, scales: seq<real>, i: nat)
    requires Moved(c, buy, price, slices, scales) && i < |slices|
    requires price > 0.0 && c.impactBps > 0.0 && scales[i] > 0.0 && forall x :: x > 0.0 ==> c.root(x) > 0.0
    ensures if buy then slices[i].price > price else slices[i].price < price
    ensures i == |scales| - 1 && scales[i] == 1.0 && c.root(1.0) == 1.0 ==>
              (slices[i].price - price) / price * 10000.0 == if buy then c.impactBps else -c.impactBps
  {
    var n, scale := |scales|, scales[i];
    var root, moved := c.root((i + 1) as real / n as real), (slices[i].price - price) * 10000.0;
    assert (i + 1) as real / n as real > 0.0;
    Positive(price, c.impactBps);
    Positive(price * c.impactBps, scale);
    Positive(price * c.impactBps * scale, root);
    if i == n - 1 && scale == 1.0 && c.root(1.0) == 1.0 {
      assert (i + 1) as real / n as real == 1.0;
      assert moved == price * (if buy then c.impactBps else -c.impactBps);
      Relative(slices[i].price - price, price, if buy then c.impactBps else -c.impactBps);
    }
  }

  lemma Partakes(total: real, n: nat, adv: real, w: real, participation: real)
    requires n > 0 && w > 0.0
    requires var expected := Expected(n, adv, w);
             participation == if expected > 0.0 then total * w / expected else 1.0
    ensures if adv > 0.0 then participation * Volume(n, adv) == total else participation == 1.0
  {
    ExpectedIsShare(n, adv, w);
    var all, expected := Volume(n, adv), Expected(n, adv, w);
    hide Volume, Expected;
    ProductSign(all, w);
    if adv > 0.0 {
      assert participation * expected == total * w;
      assert participation * all * w == participation * (all * w);
      Divides(participation * all, total, w);
    }
  }

  /** With a square root that grows, and impact that worsens prices, a later slice or a thinner bar
      never gets a better price. */
  lemma LaterAndThinnerIsWorse(c: Config, buy: bool, price: real, i: nat, j: nat, n: nat, scale: real, more: real)
    requires Worsening(c, price) && i <= j < n && 0.0 <= scale <= more
    requires forall x, y :: 0.0 <= x <= y ==> c.root(x) <= c.root(y)
    ensures Adverse(buy, PriceOf(c, buy, price, i, n, scale), PriceOf(c, buy, price, j, n, more))
  {
    var x, y := (i + 1) as real / n as real, (j + 1) as real / n as real;
    Shares(i, j, n);
    var r, r', base := c.root(x), c.root(y), c.impactBps * 0.0001;
    Grows(base, scale, more);
    Grows2(base * scale, base * more, r, r');
    Spread(price, Impact(c, i, n, scale), Impact(c, j, n, more));
  }

  lemma Shares(i: nat, j: nat, n: nat)
    requires i <= j < n
    ensures 0.0 <= (i + 1) as real / n as real <= (j + 1) as real / n as real
  {}

  lemma Grows(base: real, x: real, y: real)
    requires base >= 0.0 && 0.0 <= x <= y
    ensures 0.0 <= base * x <= base * y
  {
    NotNegative(base, x);
    NotNegative(base, y - x);
    var more := y - x;
    assert base * y == base * x + base * more;
  }

  lemma Grows2(a: real, b: real, x: real, y: real)
    requires 0.0 <= a <= b && 0.0 <= x <= y
    ensures 0.0 <= a * x <= b * y
  {
    Grows(a, x, y);
    Grows(y, a, b);
    assert a * y == y * a && b * y == y * b;
  }

  lemma Spread(price: real, x: real, y: real)
    requires price >= 0.0 && x <= y
    ensures price * (1.0 + x) <= price * (1.0 + y) && price * (1.0 - y) <= price * (1.0 - x)
  {}

  lemma ShiftIsAdverse(buy: bool, price: real, multiplier: real)
    requires price >= 0.0 && multiplier >= 0.0
    ensures Adverse(buy, price, Shifted(buy, price, multiplier))
  {
    assert price * multiplier >= 0.0;
  }

  method Summarise(c: Config, buy: bool, total: real, price: real, slices: seq<Slice>, filled: real, cost: real)
    returns (r: Result)
    ensures r.target == total && r.filled == filled && r.slices == slices
    ensures r.complete <==> filled >= total * 0.99
    ensures r.impact.None? <==> price == 0.0
    ensures r.impact.Some? ==> r.impact.value * price == Abs(r.average - price) * 10000.0
    ensures filled > 0.0 && Adverse(buy, At(price, filled), cost) ==> Adverse(buy, price, r.average)
    ensures filled > 0.0 ==> r.average * filled == cost
    ensures filled <= 0.0 ==> r.average == price
  {
    var average := if filled > 0.0 then cost / filled else price;
    var impact := if price == 0.0 then None else Some(Abs(average - price) / price * 10000.0);
    r := Result(total, filled, average, slices, impact, filled >= total * 0.99);
    if price != 0.0 {
      DivideBack(Abs(average - price), price);
      assert Abs(average - price) / price * 10000.0 * price == Abs(average - price) / price * price * 10000.0;
    }
    if filled > 0.0 {
      assert average * filled == cost;
      ProductOrder(filled, price, average);
      ProductOrder(filled, average, price);
    }
  }

  lemma ValueMoves(price: real, s: Slice)
    requires s.qty > 0.0
    ensures (price * s.qty <= Value(s) <==> price <= s.price) && (Value(s) <= price * s.qty <==> s.price <= price)
  {
    ProductOrder(s.qty, price, s.price);
    ProductOrder(s.qty, s.price, price);
  }

  lemma CostMoves(buy: bool, price: real, filled: real, cost: real, s: Slice)
    requires Adverse(buy, At(price, filled), cost) && Adverse(buy, price, s.price) && s.qty > 0.0
    ensures Adverse(buy, At(price, filled + s.qty), cost + Value(s))
  {
    hide Value;
    ValueMoves(price, s);
    assert price * (filled + s.qty) == price * filled + price * s.qty;
  }

  // ---- How far a loop has come ----

  /** The loop's data besides its running totals. */
  datatype Plan = Plan(
    c: Config, buy: bool, price: real, uncut: real, total: real, w: seq<real>, scales: seq<real>, adv: real)

  /** The first slices took what they should, the running totals are theirs, and the cost is no better than
      the reference price. */
  ghost predicate Progress(p: Plan, slices: seq<Slice>, done: real, cost: real) {
    && Taking(slices, p.uncut, p.total, p.w) && Priced(p.c, p.buy, p.price, slices, p.scales)
    && cost == CostOf(slices) && done == Sum(Quantities(slices)) && |slices| <= Reach(p.w)
    && Partaking(slices, p.total, |p.w|, p.adv)
    && (|slices| > 0 ==> p.uncut > 0.0)
    && (p.uncut > 0.0 ==> done == Min(p.total, Part(p.uncut, Sum(p.w[..|slices|]))))
    && (Worsening(p.c, p.price) ==> Adverse(p.buy, At(p.price, done), cost))
  }

  lemma ProgressStart(p: Plan)
    requires p.uncut > 0.0 ==> p.total > 0.0
    ensures Progress(p, [], 0.0, 0.0)
  {
    assert Quantities([]) == [] && p.w[..0] == [];
  }

  /** A slice of its share, or of what is left if that is less. */
  lemma ProgressMore(p: Plan, slices: seq<Slice>, done: real, cost: real, s: Slice)
    requires Progress(p, slices, done, cost) && |slices| < |p.w| == |p.scales| && p.w[|slices|] > 0.0
    requires p.uncut > 0.0 && 0.0 < s.qty == Min(Part(p.uncut, p.w[|slices|]), p.total - done)
    requires Worsening(p.c, p.price) ==> Adverse(p.buy, p.price, s.price)
    requires s.index == |slices|
    requires if p.adv > 0.0 then s.participation * Volume(|p.w|, p.adv) == p.total else s.participation == 1.0
    requires s.price == PriceOf(p.c, p.buy, p.price, |slices|, |p.w|, p.scales[|slices|])
    ensures Progress(p, slices + [s], done + s.qty, cost + Value(s))
  {
    hide Sum, Adverse, Worsening, Part, Value, At, PriceOf, Partaking, Volume, Taking, Priced, CostOf,
         Quantities;
    var n, longer := |slices|, slices + [s];
    QuantityMore(slices, s);
    CostMore(slices, s);
    PartMore(p.uncut, p.w, n);
    SlicesMore(p, slices, s);
    PartakingMore(slices, s, p.total, |p.w|, p.adv);
    if Worsening(p.c, p.price) { CostMoves(p.buy, p.price, done, cost, s); }
  }

  lemma QuantityMore(slices: seq<Slice>, s: Slice)
    ensures Sum(Quantities(slices + [s])) == Sum(Quantities(slices)) + s.qty
  {
    hide Sum;
    assert Quantities(slices + [s]) == Quantities(slices) + [s.qty];
    SumAppend(Quantities(slices), s.qty);
  }

  lemma CostMore(slices: seq<Slice>, s: Slice)
    ensures CostOf(slices + [s]) == CostOf(slices) + Value(s)
  {
    hide Value;
    assert (slices + [s])[..|slices|] == slices;
  }

  lemma PartMore(uncut: real, w: seq<real>, n: nat)
    requires n < |w| && uncut > 0.0
    ensures Part(uncut, Sum(w[..n + 1])) == Part(uncut, Sum(w[..n])) + Part(uncut, w[n])
  {
    hide Sum, Part;
    assert w[..n + 1] == w[..n] + [w[n]];
    SumAppend(w[..n], w[n]);
    PartsAdd(uncut, Sum(w[..n]), w[n]);
  }

  lemma SlicesMore(p: Plan, slices: seq<Slice>, s: Slice)
    requires |slices| < |p.w| == |p.scales|
    requires Taking(slices, p.uncut, p.total, p.w) && Priced(p.c, p.buy, p.price, slices, p.scales)
    requires s.index == |slices| && s.qty == Taken(p.uncut, p.total, p.w, |slices|)
    requires s.price == PriceOf(p.c, p.buy, p.price, |slices|, |p.w|, p.scales[|slices|])
    ensures Taking(slices + [s], p.uncut, p.total, p.w) && Priced(p.c, p.buy, p.price, slices + [s], p.scales)
  {
    hide PriceOf, Taken;
  }

  /** A loop that has run out of weights, met one that is not positive, or filled the order, is done. */
  lemma ProgressEnd(p: Plan, slices: seq<Slice>, done: real, cost: real)
    requires Progress(p, slices, done, cost)
    requires p.uncut <= 0.0 || |slices| == |p.w| || p.w[|slices|] <= 0.0 || done >= p.total
    ensures done == Filled(p.uncut, p.total, p.w)
  {
    hide Part, Sum, Reach;
    var k, z := |slices|, Reach(p.w);
    if p.uncut > 0.0 {
      assert p.w[..z] == p.w[..k] + p.w[k..z];
      SumConcat(p.w[..k], p.w[k..z]);
      SumPositive(p.w[k..z]);
      PartsAdd(p.uncut, Sum(p.w[..k]), Sum(p.w[k..z]));
      if k == z { assert p.w[k..z] == []; }
    } else {
      assert slices == [] && Quantities(slices) == [];
      SumOfNone();
    }
  }

  lemma SumOfNone()
    ensures Sum([]) == 0.0
  {}

  /** With weights that sum to one and nothing to trim, no share is cut and so none is missing. */
  lemma NothingIsCut(p: Plan, slices: seq<Slice>, done: real, cost: real)
    requires Progress(p, slices, done, cost) && Weights(p.w) && 0.0 < p.uncut <= p.total
    ensures |slices| < |p.w| ==> 0.0 < Part(p.uncut, p.w[|slices|]) <= p.total - done
    ensures Shared(slices, p.uncut, p.w)
  {
    hide Part, Sum, Weights;
    if |slices| < |p.w| {
      ShareFits(p.uncut, p.total, p.w, |slices|);
      assert done == Part(p.uncut, Sum(p.w[..|slices|]));
    }
    forall i | 0 <= i < |slices| ensures slices[i].qty == Part(p.uncut, p.w[i]) {
      ShareFits(p.uncut, p.total, p.w, i);
    }
  }

  /** The result of a loop that has come to its end. */
  lemma ResultFills(p: Plan, slices: seq<Slice>, done: real, cost: real, r: Result)
    requires Progress(p, slices, done, cost)
    requires p.uncut <= 0.0 || |slices| == |p.w| || p.w[|slices|] <= 0.0 || done >= p.total
    requires r.target == p.total && r.filled == done && r.slices == slices
    requires done > 0.0 ==> r.average * done == cost
    requires done <= 0.0 ==> r.average == p.price
    requires done > 0.0 && Adverse(p.buy, At(p.price, done), cost) ==> Adverse(p.buy, p.price, r.average)
    requires r.impact.Some? ==> r.impact.value * p.price == Abs(r.average - p.price) * 10000.0
    ensures Fills(p.c, p.buy, p.price, p.uncut, p.w, p.scales, p.adv, r)
  {
    hide Moved, Partaking, Progress, Part, Sum, At, CostOf, Worsening, Priced, Taking, Filled, Weights, Shared, Adverse,
         Quantities;
    ProgressEnd(p, slices, done, cost);
    ProgressMeans(p, slices, done, cost);
    if Weights(p.w) && 0.0 < p.uncut <= p.total {
      NothingIsCut(p, slices, done, cost);
      if |slices| < |p.w| { WeightIsPositive(p.w, |slices|); }
    }
    AdverseToItself(p.buy, p.price);
    PricedMoves(p.c, p.buy, p.price, slices, p.scales);
  }

  lemma ProgressMeans(p: Plan, slices: seq<Slice>, done: real, cost: real)
    requires Progress(p, slices, done, cost)
    ensures Taking(slices, p.uncut, p.total, p.w) && Priced(p.c, p.buy, p.price, slices, p.scales)
    ensures Partaking(slices, p.total, |p.w|, p.adv)
    ensures cost == CostOf(slices) && done == Sum(Quantities(slices)) && (|slices| > 0 ==> p.uncut > 0.0)
    ensures Worsening(p.c, p.price) ==> Adverse(p.buy, At(p.price, done), cost)
  {}

  lemma AdverseToItself(buy: bool, price: real)
    ensures Adverse(buy, price, price)
  {}

  lemma WeightIsPositive(w: seq<real>, i: nat)
    requires Weights(w) && i < |w|
    ensures w[i] > 0.0
  {}

  lemma {:induction false} SumPositive(xs: seq<real>)
    requires forall i :: 0 <= i < |xs| ==> xs[i] > 0.0
    ensures Sum(xs) >= 0.0 && (|xs| > 0 ==> Sum(xs) > 0.0)
  {
    if |xs| > 0 { SumPositive(xs[..|xs| - 1]); }
  }

  /** The next share always fits into what is left of the order, so the loop never trims it. */
  lemma ShareFits(filled: real, total: real, w: seq<real>, i: nat)
    requires Weights(w) && i < |w| && 0.0 < filled <= total
    ensures 0.0 < Part(filled, w[i]) <= total - Part(filled, Sum(w[..i]))
  {
    var before, after := w[..i], w[i + 1..];
    assert w == before + [w[i]] + after;
    SumConcat(before + [w[i]], after);
    SumAppend(before, w[i]);
    SumPositive(after);
    hide Sum;
    PartsAdd(filled, Sum(before), w[i]);
    PartsAdd(filled, Sum(before) + w[i], Sum(after));
  }

  lemma PartsAdd(filled: real, x: real, y: real)
    requires filled > 0.0
    ensures Part(filled, x + y) == Part(filled, x) + Part(filled, y)
    ensures Part(filled, 1.0) == filled && (y >= 0.0 ==> Part(filled, y) >= 0.0) && (y > 0.0 ==> Part(filled, y) > 0.0)
  {
    ProductSign(y, filled);
  }

  /** The size a loop computes for a slice of weight `w` whose bar is expected to trade `expected`. */
  function Size(total: real, cap: real, w: real, expected: real): real {
    if (if expected > 0.0 then total * w / expected else 1.0) > cap then expected * cap else total * w
  }

  /** For a positive weight it is that share of the uncut quantity: the participation is the same for every
      slice, so either all slices are capped or none. A weight that is not positive gives nothing to fill. */
  lemma SliceIsItsShare(total: real, n: nat, adv: real, cap: real, w: real)
    requires n > 0 && total > 0.0
    ensures var uncut, qty := Uncut(total, n, adv, cap), Size(total, cap, w, Expected(n, adv, w));
            && (w > 0.0 ==> if uncut > 0.0 then qty == Part(uncut, w) else qty <= 0.0)
            && (w <= 0.0 && (w == 0.0 || cap >= 0.0) ==> qty <= 0.0)
  {
    ExpectedIsShare(n, adv, w);
    var all, through, expected := Volume(n, adv), Through(n, adv, cap), Expected(n, adv, w);
    hide Size, Part, Volume, Through, Expected;
    if w > 0.0 {
      PositiveWeight(total, cap, w, all, expected, through);
      ShareSign(Min(total, through), w);
      ShareSign(through, w);
    } else if w == 0.0 || cap >= 0.0 {
      OtherWeight(total, cap, w, expected);
    }
  }

  lemma ShareSign(uncut: real, w: real)
    requires w > 0.0
    ensures Part(uncut, w) > 0.0 <==> uncut > 0.0
  {
    ProductSign(uncut, w);
  }

  lemma PositiveWeight(total: real, cap: real, w: real, all: real, expected: real, through: real)
    requires total > 0.0 && w > 0.0 && expected == all * w && through == all * cap
    ensures all > 0.0 ==> Size(total, cap, w, expected) == Part(Min(total, through), w)
    ensures all <= 0.0 ==> Size(total, cap, w, expected) == Part(if cap < 1.0 then through else total, w)
  {
    ProductSign(all, w);
    assert cap * expected == through * w by { assert cap * (all * w) == all * cap * w; }
    if all > 0.0 { CapDecides(total, cap, w, expected, through); }
  }

  /** Participation passes the cap exactly when the order passes what the cap lets through. */
  lemma CapDecides(total: real, cap: real, w: real, expected: real, through: real)
    requires w > 0.0 && expected > 0.0 && cap * expected == through * w
    ensures Size(total, cap, w, expected) == Part(Min(total, through), w)
  {
    var part := total * w / expected;
    assert part * expected == total * w;
    ProductOrder(expected, part, cap);
    ProductOrder(w, total, through);
    assert part > cap <==> total > through;
  }

  lemma OtherWeight(total: real, cap: real, w: real, expected: real)
    requires total > 0.0 && w <= 0.0 && (w == 0.0 || cap >= 0.0) && (w == 0.0 ==> expected == 0.0)
    ensures Size(total, cap, w, expected) <= 0.0
  {
    NotNegative(total, -w);
    assert total * (-w) == -(total * w);
    if expected > 0.0 {
      var part := total * w / expected;
      assert part * expected == total * w;
      ProductSign(part, expected);
    } else if cap >= 0.0 {
      NotNegative(-expected, cap);
      assert (-expected) * cap == -(expected * cap);
    }
  }

  /** No slice exceeds its cap, and whether a slice is cut down does not depend on its weight: the cap
      cuts all slices or none. */
  lemma CapsAllOrNone(total: real, n: nat, adv: real, cap: real, w: real)
    requires n > 0 && w > 0.0 && cap > 0.0 && adv > 0.0 && total > 0.0
    ensures var share, limit := Part(Executable(total, n, adv, cap), w), Expected(n, adv, w) * cap;
            share <= limit && share <= total * w
            && (share == total * w <==> total <= Through(n, adv, cap))
            && (share == limit <==> total >= Through(n, adv, cap))
  {
    ExecutableIsCapped(total, n, adv, cap);
    ExpectedIsShare(n, adv, w);
    var all, through := Volume(n, adv), Through(n, adv, cap);
    assert Expected(n, adv, w) * cap == through * w by { assert all * w * cap == all * cap * w; }
    hide Executable, Through, Expected;
    ProductOrder(w, total, through);
    ProductOrder(w, through, total);
  }

  lemma MultiplierNonNegative(c: Config, price: real, i: nat, n: nat, scale: real)
    requires Worsening(c, price) && i < n && scale >= 0.0
    ensures Impact(c, i, n, scale) >= 0.0
  {
    var root := c.root((i + 1) as real / n as real);
    var base := c.impactBps * 0.0001;
    assert base >= 0.0 && base * scale >= 0.0 && (base * scale) * root >= 0.0;
  }

  lemma ScaleIsPositive(w: real, n: nat)
    ensures VolumeScale(w, n) > 0.0
  {}

  /** Price of slice `i` of `n`: the impact grows with the square root of the part of the slices begun. */
  method PriceSlice(c: Config, buy: bool, price: real, i: nat, n: nat, scale: real) returns (at: real)
    requires i < n && scale >= 0.0
    ensures at == PriceOf(c, buy, price, i, n, scale)
    ensures Worsening(c, price) ==> Adverse(buy, price, at)
  {
    hide Shifted, Impact;
    var multiplier := Impact(c, i, n, scale);
    at := Shifted(buy, price, multiplier);
    if Worsening(c, price) {
      MultiplierNonNegative(c, price, i, n, scale);
      ShiftIsAdverse(buy, price, multiplier);
    }
  }

  /** Size of a slice of weight `w`, held to the permitted part of the volume expected in its bar. */
  method SizeSlice(total: real, n: nat, adv: real, cap: real, w: real) returns (qty: real, participation: real)
    requires n > 0
    ensures w > 0.0 ==> if adv > 0.0 then participation * Volume(n, adv) == total else participation == 1.0
    ensures total > 0.0 && w > 0.0 ==>
              var uncut := Uncut(total, n, adv, cap); if uncut > 0.0 then qty == Part(uncut, w) else qty <= 0.0
    ensures total > 0.0 && w <= 0.0 && (w == 0.0 || cap >= 0.0) ==> qty <= 0.0
  {
    qty := total * w;
    var expected := Expected(n, adv, w);
    participation := if expected > 0.0 then qty / expected else 1.0;
    if participation > cap { qty := expected * cap; }
    assert qty == Size(total, cap, w, expected);
    if w > 0.0 { Partakes(total, n, adv, w, participation); }
    hide Uncut, Part, Size, Expected, Volume;
    if total > 0.0 { SliceIsItsShare(total, n, adv, cap, w); }
  }

  /** Size of each of `n` equal slices, held to the permitted part of the volume expected in a bar. */
  method SizeEvenSlice(total: real, n: nat, adv: real, cap: real) returns (qty: real, participation: real)
    requires n > 0
    ensures if adv > 0.0 then participation * Volume(n, adv) == total else participation == 1.0
    ensures total > 0.0 ==>
              var uncut := Uncut(total, n, adv, cap);
              if uncut > 0.0 then qty == Part(uncut, 1.0 / n as real) else qty <= 0.0
  {
    qty := total / n as real;
    var volume := adv / BARS as real;
    participation := if volume > 0.0 then qty / volume else 1.0;
    EvenPartakes(total, n, adv, participation);
    hide Uncut, Part, Volume;
    if participation > cap { qty := volume * cap; }
    if total > 0.0 { EvenSlice(total, n, adv, cap, qty); }
  }

  // ---- The two loops ----

  /** TWAPExecutor.simulate: equal slices. */
  method Twap(c: Config, buy: bool, total: real, price: real, adv: real) returns (out: Outcome)
    ensures out.ZeroSlices? <==> c.numSlices == 0
    ensures out.Done? ==>
              var n := c.numSlices;
              && out.result.target == total
              && Fills(c, buy, price, Uncut(total, n, adv, c.cap), Even(n), Ones(n), adv, out.result)
              && out.result.filled == Executable(total, n, adv, c.cap)
  {
    hide Uncut, Executable, Sum, PriceOf, Part, Value, At, Progress, Weights, Quantities, Worsening, Fills, Adverse,
         Volume;
    var n := c.numSlices;
    if n == 0 { return ZeroSlices; }
    var sliceQty, participation := SizeEvenSlice(total, n, adv, c.cap);
    ghost var p := Plan(c, buy, price, Uncut(total, n, adv, c.cap), total, Even(n), Ones(n), adv);
    UncutSign(total, n, adv, c.cap);
    EvenIsWeights(n);
    var slices, done, cost := [], 0.0, 0.0;
    ProgressStart(p);
    for i := 0 to n
      invariant |slices| == i && (i == 0 ==> done == 0.0)
      invariant Progress(p, slices, done, cost) && (i > 0 ==> p.uncut > 0.0)
    {
      var actual := Min(sliceQty, total - done);
      if actual <= 0.0 { break; }
      var at := PriceSlice(c, buy, price, i, n, 1.0);
      var slice := Slice(i, actual, at, participation);
      ProgressMore(p, slices, done, cost, slice);
      slices := slices + [slice];
      done, cost := done + slice.qty, cost + Value(slice);
    }
    if |slices| < n && p.uncut > 0.0 && done < total { SharePositive(p.uncut, Even(n)[|slices|]); }
    var r := Summarise(c, buy, total, price, slices, done, cost);
    ResultFills(p, slices, done, cost, r);
    WeightsFillExecutable(p.c, buy, price, n, adv, p.w, p.scales, r);
    return Done(r);
  }

  lemma EvenPartakes(total: real, n: nat, adv: real, participation: real)
    requires n > 0
    requires participation == if adv / BARS as real > 0.0 then total / n as real / (adv / BARS as real) else 1.0
    ensures if adv > 0.0 then participation * Volume(n, adv) == total else participation == 1.0
  {
    var v, m := adv / BARS as real, n as real;
    if adv > 0.0 {
      DivideBack(total / m, v);
      assert participation * (m * v) == participation * v * m;
    }
  }

  lemma UncutSign(total: real, n: nat, adv: real, cap: real)
    ensures Uncut(total, n, adv, cap) >= 0.0 && (Uncut(total, n, adv, cap) > 0.0 ==> total > 0.0)
  {}

  lemma SharePositive(uncut: real, w: real)
    requires uncut > 0.0
    ensures Part(uncut, w) > 0.0 <==> w > 0.0
  {
    ProductSign(w, uncut);
  }

  /** Over weights that sum to one a loop fills exactly what can be. */
  lemma WeightsFillExecutable(c: Config, buy: bool, price: real, n: nat, adv: real, w: seq<real>, scales: seq<real>,
                              r: Result)
    requires Weights(w) && Fills(c, buy, price, Uncut(r.target, n, adv, c.cap), w, scales, adv, r)
    ensures r.filled == Executable(r.target, n, adv, c.cap)
  {
    assert Reach(w) == |w| && w[..|w|] == w;
    UncutSign(r.target, n, adv, c.cap);
    hide Uncut, Sum, Taking, Moved, Partaking, Worsening, CostOf;
    WholePart(Uncut(r.target, n, adv, c.cap));
  }

  lemma WholePart(filled: real)
    ensures Part(filled, 1.0) == filled
  {}

  lemma EvenSlice(total: real, n: nat, adv: real, cap: real, qty: real)
    requires n > 0 && total > 0.0
    requires var volume, even := adv / BARS as real, total / n as real;
             qty == if (if volume > 0.0 then even / volume else 1.0) > cap then volume * cap else even
    ensures var uncut := Uncut(total, n, adv, cap);
            if uncut > 0.0 then qty == Part(uncut, 1.0 / n as real) else qty <= 0.0
  {
    EvenSize(total, n, adv, cap);
    hide Size, Uncut, Part, Expected;
    SliceIsItsShare(total, n, adv, cap, 1.0 / n as real);
  }

  lemma EvenSize(total: real, n: nat, adv: real, cap: real)
    requires n > 0
    ensures var volume, even, w := adv / BARS as real, total / n as real, 1.0 / n as real;
            && w > 0.0
            && Size(total, cap, w, Expected(n, adv, w))
               == if (if volume > 0.0 then even / volume else 1.0) > cap then volume * cap else even
  {
    EvenWeight(n, total, BarVolume(adv));
    assert Expected(n, adv, 1.0 / n as real) == BarVolume(adv);
    hide Expected;
  }

  lemma EvenWeight(n: nat, total: real, v: real)
    requires n > 0
    ensures var w := 1.0 / n as real; w > 0.0 && total * w == total / n as real && v * w * n as real == v
  {
    var w := 1.0 / n as real;
    assert w * n as real == 1.0;
    assert v * w * n as real == v * (w * n as real);
  }

  lemma EvenIsWeights(n: nat)
    requires n > 0
    ensures Weights(Even(n)) && forall i :: 0 <= i < n ==> Even(n)[i] == 1.0 / n as real
  {
    SumOfEqual(Even(n), 1.0 / n as real);
    assert 1.0 / n as real > 0.0;
  }

  lemma {:induction false} SumOfEqual(xs: seq<real>, x: real)
    requires forall i :: 0 <= i < |xs| ==> xs[i] == x
    ensures Sum(xs) == |xs| as real * x
  {
    if |xs| > 0 { SumOfEqual(xs[..|xs| - 1], x); }
  }

  /** VWAPExecutor.simulate over any volume profile: slices in proportion to it, up to the first bar without
      volume. */
  method Vwap(c: Config, profile: seq<real>, buy: bool, total: real, price: real, adv: real) returns (r: Result)
    requires c.cap >= 0.0 || forall i :: 0 <= i < |profile| ==> profile[i] >= 0.0
    ensures r.target == total
    ensures Fills(c, buy, price, Uncut(total, |profile|, adv, c.cap), profile, VolumeScales(profile), adv, r)
    ensures Weights(profile) ==> r.filled == Executable(total, |profile|, adv, c.cap)
  {
    hide Uncut, Executable, Sum, PriceOf, Part, Value, At, Progress, Weights, Quantities, Worsening, Fills, Adverse,
         VolumeScale, Volume;
    var n := |profile|;
    ghost var p := Plan(c, buy, price, Uncut(total, n, adv, c.cap), total, profile, VolumeScales(profile), adv);
    UncutSign(total, n, adv, c.cap);
    var slices, done, cost := [], 0.0, 0.0;
    ProgressStart(p);
    for i := 0 to n
      invariant |slices| == i && (i == 0 ==> done == 0.0)
      invariant Progress(p, slices, done, cost) && (i > 0 ==> p.uncut > 0.0)
    {
      var sliceQty, participation := SizeSlice(total, n, adv, c.cap, profile[i]);
      var actual := Min(sliceQty, total - done);
      if p.uncut > 0.0 { SharePositive(p.uncut, profile[i]); }
      if actual <= 0.0 { break; }
      var scale := VolumeScale(profile[i], n);
      ScaleIsPositive(profile[i], n);
      var at := PriceSlice(c, buy, price, i, n, scale);
      var slice := Slice(i, actual, at, participation);
      ProgressMore(p, slices, done, cost, slice);
      slices := slices + [slice];
      done, cost := done + slice.qty, cost + Value(slice);
    }
    r := Summarise(c, buy, total, price, slices, done, cost);
    ResultFills(p, slices, done, cost, r);
    if Weights(profile) { WeightsFillExecutable(c, buy, price, n, adv, profile, p.scales, r); }
  }

  /** A profile of weights that sum to one, some of them zero, is executed in full if and only if no bar with
      volume follows one without. */
  lemma VolumelessBarEndsExecution(uncut: real, total: real, w: seq<real>)
    requires 0.0 < uncut <= total && Sum(w) == 1.0 && forall i :: 0 <= i < |w| ==> w[i] >= 0.0
    ensures Filled(uncut, total, w) == uncut <==> forall i :: Reach(w) <= i < |w| ==> w[i] == 0.0
    ensures Filled(uncut, total, w) <= uncut
  {
    hide Sum, Part, Reach;
    var z := Reach(w);
    assert w == w[..z] + w[z..];
    SumConcat(w[..z], w[z..]);
    SumIsZero(w[z..]);
    forall i | z <= i < |w| ensures w[i] == w[z..][i - z] {}
    PartsAdd(uncut, Sum(w[..z]), Sum(w[z..]));
    SharePositive(uncut, Sum(w[z..]));
    ZeroPart(uncut);
  }

  lemma ZeroPart(uncut: real)
    ensures Part(uncut, 0.0) == 0.0
  {}

  lemma {:induction false} SumIsZero(xs: seq<real>)
    requires forall i :: 0 <= i < |xs| ==> xs[i] >= 0.0
    ensures Sum(xs) >= 0.0 && (Sum(xs) == 0.0 <==> forall i :: 0 <= i < |xs| ==> xs[i] == 0.0)
  {
    if |xs| > 0 { SumIsZero(xs[..|xs| - 1]); }
  }

  // ---- The default profile ----

  /** Where bin `i` of `n` begins in the 78-bar profile. */
  function BinStart(i: nat, n: nat): nat
    requires n > 0
  {
    i * (BARS - 1) / n
  }

  /** A slice that is empty where its bounds make no sense. */
  function Between(xs: seq<real>, from: nat, to: nat): seq<real> {
    if from <= to <= |xs| then xs[from..to] else []
  }

  function Bin(full: seq<real>, n: nat, i: nat): real
    requires n > 0
  {
    Sum(Between(full, BinStart(i, n), BinStart(i + 1, n)))
  }

  function Bins(full: seq<real>, n: nat): (bins: seq<real>)
    ensures |bins| == n
    ensures forall i :: 0 <= i < n ==> bins[i] == Bin(full, n, i)
  {
    seq(n, i requires 0 <= i < n => Bin(full, n, i))
  }

  /** VWAPExecutor._get_profile without a custom profile: the full day, or its bars but the last summed
      into bins and scaled to one again. */
  function GetProfile(full: seq<real>, n: nat): seq<real> {
    if n >= BARS then full else Scaled(Bins(full, n))
  }

  function Scaled(xs: seq<real>): (r: seq<real>)
    ensures |r| == |xs|
  {
    seq(|xs|, i requires 0 <= i < |xs| => if Sum(xs) == 0.0 then 0.0 else xs[i] / Sum(xs))
  }

  lemma MultipleOrder(n: nat, p: int, q: int)
    requires n > 0
    ensures n * p < n * q + n ==> p <= q
  {
    if p > q {
      var d: nat := p - q - 1;
      assert n * p == n * q + n + n * d;
    }
  }

  lemma DivisionGrows(a: nat, k: nat, n: nat)
    requires 0 < n <= k
    ensures a / n < (a + k) / n
  {
    var p, q := a / n, (a + k) / n;
    assert a == n * p + a % n && a + k == n * q + (a + k) % n;
    MultipleOrder(n, p + 1, q);
    assert n * (p + 1) == n * p + n;
  }

  /** With fewer bins than bars no bin is empty. */
  lemma BinGrows(i: nat, n: nat)
    requires i < n < BARS
    ensures BinStart(i, n) < BinStart(i + 1, n) <= BARS - 1
  {
    var k := BARS - 1;
    assert (i + 1) * k == i * k + k;
    DivisionGrows(i * k, k, n);
    LastBin(i, k, n);
  }

  lemma LastBin(i: nat, k: nat, n: nat)
    requires i < n
    ensures (i + 1) * k / n <= k
  {
    var d: nat := n - i - 1;
    assert n * k == (i + 1) * k + d * k by { Distributes(i + 1, d, k); }
    QuotientAtMost((i + 1) * k, k, n);
  }

  lemma Distributes(a: nat, b: nat, k: nat)
    ensures (a + b) * k == a * k + b * k
  {}

  lemma QuotientAtMost(a: nat, k: nat, n: nat)
    requires n > 0 && a <= n * k
    ensures a / n <= k
  {
    assert a == n * (a / n) + a % n;
    MultipleOrder(n, a / n, k);
  }

  lemma {:induction false} ScaledSum(xs: seq<real>, ys: seq<real>, k: real)
    requires |xs| == |ys| && k != 0.0 && forall i :: 0 <= i < |xs| ==> ys[i] == xs[i] / k
    ensures Sum(ys) == Sum(xs) / k
  {
    if |xs| > 0 { ScaledSum(xs[..|xs| - 1], ys[..|xs| - 1], k); }
  }

  /** The default profile has min(n, 78) positive weights that sum to one. */
  lemma ProfileIsWeights(full: seq<real>, n: nat)
    requires |full| == BARS && Weights(full)
    ensures |GetProfile(full, n)| == (if n < BARS then n else BARS)
    ensures n > 0 ==> Weights(GetProfile(full, n))
  {
    if 0 < n < BARS {
      hide Bin, Sum;
      var bins := Bins(full, n);
      forall i | 0 <= i < n ensures bins[i] > 0.0 { BinIsPositive(full, n, i); }
      ScaledIsWeights(bins);
    }
  }

  /** The bins of fewer than 78 slices divide the day's first 77 bars evenly, and each weighs as much of them
      as its bars do; the last bar's volume goes to none. */
  lemma BinsKeepShares(full: seq<real>, n: nat, i: nat)
    requires |full| == 78 && Weights(full) && i < n < 78
    ensures 0 <= i * 77 / n < (i + 1) * 77 / n <= 77 && |GetProfile(full, n)| == n && Sum(full[..77]) > 0.0
    ensures GetProfile(full, n)[i] * Sum(full[..77]) == Sum(full[i * 77 / n..(i + 1) * 77 / n])
  {
    hide Sum, Bin, Weights;
    BinGrows(i, n);
    var bins, first := Bins(full, n), Sum(full[..77]);
    BinsAddUp(full, n, n);
    LastStart(n);
    assert bins[..n] == bins;
    AllPositive(full);
    SumPositive(full[..77]);
    BinIs(full, n, i);
    DivideBack(bins[i], first);
  }

  lemma AllPositive(w: seq<real>)
    requires Weights(w)
    ensures forall i :: 0 <= i < |w| ==> w[i] > 0.0
  {}

  lemma LastStart(n: nat)
    requires n > 0
    ensures BinStart(n, n) == 77
  {
    assert n * 77 == 77 * n + 0;
    QuotientAtMost(n * 77, 77, n);
    assert n * 77 == n * (n * 77 / n) + n * 77 % n;
    MultipleOrder(n, 77, n * 77 / n);
  }

  lemma BinIs(full: seq<real>, n: nat, i: nat)
    requires |full| == 78 && i < n < 78
    ensures BinStart(i, n) <= BinStart(i + 1, n) <= 77
    ensures Bin(full, n, i) == Sum(full[BinStart(i, n)..BinStart(i + 1, n)])
  {
    hide BinStart, Sum;
    BinGrows(i, n);
  }

  lemma {:induction false} BinsAddUp(full: seq<real>, n: nat, k: nat)
    requires |full| == 78 && 0 < n < 78 && k <= n
    ensures BinStart(k, n) <= 77 && Sum(Bins(full, n)[..k]) == Sum(full[..BinStart(k, n)])
  {
    hide Sum, Bin;
    var bins := Bins(full, n);
    if k == 0 {
      assert bins[..0] == [] && full[..0] == [];
    } else {
      BinsAddUp(full, n, k - 1);
      hide BinStart;
      BinIs(full, n, k - 1);
      assert bins[..k] == bins[..k - 1] + [bins[k - 1]];
      SumAppend(bins[..k - 1], bins[k - 1]);
      var from, to := BinStart(k - 1, n), BinStart(k, n);
      assert full[..to] == full[..from] + full[from..to];
      SumConcat(full[..from], full[from..to]);
    }
  }

  lemma BinIsPositive(full: seq<real>, n: nat, i: nat)
    requires |full| == BARS && Weights(full) && i < n < BARS
    ensures Bin(full, n, i) > 0.0
  {
    hide BinStart;
    BinGrows(i, n);
    SumPositive(full[BinStart(i, n)..BinStart(i + 1, n)]);
  }

  lemma ScaledIsWeights(xs: seq<real>)
    requires |xs| > 0 && forall i :: 0 <= i < |xs| ==> xs[i] > 0.0
    ensures Weights(Scaled(xs))
  {
    hide Sum;
    SumPositive(xs);
    ScaledSum(xs, Scaled(xs), Sum(xs));
    forall i | 0 <= i < |xs| ensures Scaled(xs)[i] > 0.0 { PositiveQuotient(xs[i], Sum(xs)); }
    PositiveQuotient(Sum(xs), Sum(xs));
  }

  lemma PositiveQuotient(a: real, b: real)
    requires a > 0.0 && b > 0.0
    ensures a / b > 0.0 && b / b == 1.0
  {}

  /** With the default profile the two loops fill the same quantity for up to 78 slices; for more, the
      volume-weighted loop still makes 78, and they differ exactly when those cannot fill the order. */
  lemma DefaultLoopsAgree(full: seq<real>, total: real, n: nat, adv: real, cap: real)
    requires |full| == BARS && Weights(full) && n > 0 && total > 0.0 && adv > 0.0 && cap > 0.0
    ensures Executable(total, n, adv, cap) == Executable(total, |GetProfile(full, n)|, adv, cap)
            <==> n <= BARS || total <= adv * cap
  {
    ProfileIsWeights(full, n);
    if n > BARS {
      ExecutableIsCapped(total, n, adv, cap);
      ExecutableIsCapped(total, BARS, adv, cap);
      MoreBarsLetMoreThrough(n, adv, cap);
      hide Executable, Through, GetProfile, Weights;
    }
  }

  lemma MoreBarsLetMoreThrough(n: nat, adv: real, cap: real)
    requires n > BARS && adv > 0.0 && cap > 0.0
    ensures Through(BARS, adv, cap) == adv * cap < Through(n, adv, cap)
  {
    assert Volume(BARS, adv) == adv;
    ProductOrder(BarVolume(adv), n as real, BARS as real);
    ProductOrder(cap, Volume(n, adv), adv);
  }
}
