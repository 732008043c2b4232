/** Open pair positions of a backtest: the insertion-ordered book of
    backtests/order_book.py, the marks it is valued at, and the close arithmetic
    of backtests/position_tracker.py. */
module PairBook {
  import opened Foundations

  datatype Side = Long | Short

  datatype Position = Position(
    side: Side, sym1: string, sym2: string,
    entry1: real, entry2: real, entryBar: int,
    notional: real, notional1: real, notional2: real,
    entryCost: real, halfLife: Option<int>,
    peak: real, stopPct: real, borrowFee: real)

  datatype Entry = Entry(key: string, pos: Position)

  /** The price frame: one price per symbol and bar, `bars` rows, and the symbols that are columns. */
  datatype Market = Market(price: (string, int) -> real, bars: nat, listed: string -> bool)

  // ---- The book: a dict in insertion order ----

  ghost predicate Distinct(open: seq<Entry>) {
    forall i, j :: 0 <= i < j < |open| ==> open[i].key != open[j].key
  }

  function Keys(open: seq<Entry>): (ks: set<string>) { set e | e in open :: e.key }

  /** The keys in book order, as `list(positions.keys())` takes them. */
  function KeyList(open: seq<Entry>): (ks: seq<string>)
    ensures |ks| == |open| && forall i :: 0 <= i < |ks| ==> ks[i] == open[i].key
  {
    seq(|open|, i requires 0 <= i < |open| => open[i].key)
  }

  /** Where a key sits in the book; the length of the book when it is absent. */
  function IndexOf(open: seq<Entry>, key: string): (i: nat)
    ensures i <= |open|
    ensures i < |open| ==> open[i].key == key
    ensures i == |open| <==> key !in Keys(open)
    ensures forall j :: 0 <= j < i ==> open[j].key != key
  {
    if |open| == 0 then 0
    else if open[0].key == key then assert open[0] in open; 0
    else
      var i := IndexOf(open[1..], key);
      assert Keys(open) == {open[0].key} + Keys(open[1..]) by { KeysCons(open); }
      1 + i
  }

  lemma KeysCons(open: seq<Entry>)
    requires |open| > 0
    ensures Keys(open) == {open[0].key} + Keys(open[1..])
  {
    assert open == [open[0]] + open[1..];
  }

  function Take(open: seq<Entry>, i: nat): seq<Entry>
    requires i < |open|
  {
    open[..i] + open[i + 1..]
  }

  /** Popping one entry removes exactly its key and keeps the keys distinct. */
  lemma TakeKeys(open: seq<Entry>, i: nat)
    requires i < |open| && Distinct(open)
    ensures Distinct(Take(open, i))
    ensures Keys(Take(open, i)) == Keys(open) - {open[i].key}
  {
    assert open == open[..i] + [open[i]] + open[i + 1..];
  }

  lemma PutKeys(open: seq<Entry>, key: string, pos: Position)
    requires Distinct(open) && key !in Keys(open)
    ensures Distinct(open + [Entry(key, pos)])
    ensures Keys(open + [Entry(key, pos)]) == Keys(open) + {key}
  {
    forall i | 0 <= i < |open| ensures open[i].key != key { assert open[i] in open; }
  }

  lemma ReplaceKeys(open: seq<Entry>, i: nat, pos: Position)
    requires Distinct(open) && i < |open|
    ensures Distinct(open[i := Entry(open[i].key, pos)])
    ensures Keys(open[i := Entry(open[i].key, pos)]) == Keys(open)
  {
    var after := open[i := Entry(open[i].key, pos)];
    forall k | k in Keys(open) ensures k in Keys(after) {
      var e :| e in open && e.key == k;
      var j :| 0 <= j < |open| && open[j] == e;
      assert after[j] in after;
    }
  }

  lemma DistinctCount(open: seq<Entry>)
    requires Distinct(open)
    ensures |Keys(open)| == |open|
  {
    if |open| > 0 {
      KeysCons(open);
      DistinctCount(open[1..]);
      forall e | e in open[1..] ensures e.key != open[0].key {}
    } else {
      assert Keys(open) == {};
    }
  }

  /** Entry costs paid on positions that are still open. */
  function OpenCosts(open: seq<Entry>): real {
    if |open| == 0 then 0.0 else open[0].pos.entryCost + OpenCosts(open[1..])
  }

  lemma {:induction false} OpenCostsConcat(a: seq<Entry>, b: seq<Entry>)
    ensures OpenCosts(a + b) == OpenCosts(a) + OpenCosts(b)
  {
    if |a| == 0 {
      assert a + b == b;
    } else {
      assert (a + b)[1..] == a[1..] + b;
      OpenCostsConcat(a[1..], b);
    }
  }

  lemma TakeCosts(open: seq<Entry>, i: nat)
    requires i < |open|
    ensures OpenCosts(Take(open, i)) == OpenCosts(open) - open[i].pos.entryCost
  {
    OpenCostsConcat(open[..i], open[i + 1..]);
    OpenCostsConcat(open[..i], open[i..]);
    assert open == open[..i] + open[i..] && open[i..][1..] == open[i + 1..];
  }

  lemma ReplaceCosts(open: seq<Entry>, i: nat, pos: Position)
    requires i < |open| && pos.entryCost == open[i].pos.entryCost
    ensures OpenCosts(open[i := Entry(open[i].key, pos)]) == OpenCosts(open)
  {
    var after := open[i := Entry(open[i].key, pos)];
    TakeCosts(open, i);
    TakeCosts(after, i);
    assert Take(open, i) == Take(after, i);
  }

  // ---- Valuation ----

  /** Return of one leg; a zero entry price counts as no return. */
  function LegReturn(entry: real, now: real, held: bool): real {
    if entry == 0.0 then 0.0 else if held then (now - entry) / entry else (entry - now) / entry
  }

  function Return1(pos: Position, m: Market, bar: int): real {
    LegReturn(pos.entry1, m.price(pos.sym1, bar), pos.side == Long)
  }

  function Return2(pos: Position, m: Market, bar: int): real {
    LegReturn(pos.entry2, m.price(pos.sym2, bar), pos.side == Short)
  }

  /** `unrealized_pnl`: each leg at its own notional. */
  function Unrealized(pos: Position, m: Market, bar: int): real {
    pos.notional1 * Return1(pos, m, bar) + pos.notional2 * Return2(pos, m, bar)
  }

  /** The mark used in portfolio values: both legs at half the notional. */
  function Mark(pos: Position, m: Market, bar: int): real {
    pos.notional / 2.0 * Return1(pos, m, bar) + pos.notional / 2.0 * Return2(pos, m, bar)
  }

  function MarkAll(open: seq<Entry>, m: Market, bar: int): real {
    if |open| == 0 then 0.0 else MarkAll(open[..|open| - 1], m, bar) + Mark(open[|open| - 1].pos, m, bar)
  }

  /** The legs of an entry: the notional shared out so that the short leg is `beta` times the long one. */
  function BetaLegs(notional: real, beta: real, side: Side): (real, real)
    requires beta != -1.0
  {
    var long, short := notional / (1.0 + beta), ByBeta(notional, beta) / (1.0 + beta);
    if side == Long then (long, short) else (short, long)
  }

  function ByBeta(notional: real, beta: real): real { notional * beta }

  /** They make up the notional, the leg that is sold is `beta` times the one that is bought, and they are equal
      only at a ratio of one. */
  lemma BetaLegsShareTheNotional(notional: real, beta: real, side: Side)
    requires beta != -1.0
    ensures var (n1, n2) := BetaLegs(notional, beta, side);
            && n1 + n2 == notional && (n1 == n2 <==> notional == 0.0 || beta == 1.0)
            && (if side == Long then n2 == n1 * beta else n1 == n2 * beta)
  {
    BetaOne(notional, beta);
    SoldByBeta(notional, beta);
    hide ByBeta;
    SharesAddUp(notional, ByBeta(notional, beta), 1.0 + beta, notional);
  }

  lemma SoldByBeta(n: real, beta: real)
    requires beta != -1.0
    ensures ByBeta(n, beta) / (1.0 + beta) == n / (1.0 + beta) * beta
  {
    var d := 1.0 + beta;
    DivideBack(n, d);
    DivideBack(ByBeta(n, beta), d);
    assert n / d * beta * d == n / d * d * beta;
    Divides(ByBeta(n, beta) / d, n / d * beta, d);
  }

  lemma SharesAddUp(a: real, b: real, d: real, n: real)
    requires d != 0.0 && n * d == a + b
    ensures a / d + b / d == n && (a / d == b / d <==> a == b)
  {
    var x, y := a / d, b / d;
    DivideBack(a, d);
    DivideBack(b, d);
    assert (x + y) * d == x * d + y * d;
    Divides(x + y, n, d);
  }

  lemma BetaOne(n: real, beta: real)
    ensures n * (1.0 + beta) == n + ByBeta(n, beta) && (n == ByBeta(n, beta) <==> n == 0.0 || beta == 1.0)
  {
    var e := beta - 1.0;
    assert n * beta == n + n * e;
    NoDivisors(n, e);
  }

  /** The portfolio mark of a position whose legs make up its notional equals its unrealised P&L exactly
      when the legs are equal or both have had the same return. */
  lemma MarkAgreesWithUnrealized(pos: Position, m: Market, bar: int)
    requires pos.notional1 + pos.notional2 == pos.notional
    ensures Mark(pos, m, bar) == Unrealized(pos, m, bar)
            <==> pos.notional1 == pos.notional2 || Return1(pos, m, bar) == Return2(pos, m, bar)
  {
    var r1, r2, h := Return1(pos, m, bar), Return2(pos, m, bar), pos.notional / 2.0;
    var skew := (pos.notional1 - pos.notional2) / 2.0;
    SkewedLegs(h, skew, r1, r2);
    NoDivisors(skew, r1 - r2);
  }

  lemma SkewedLegs(h: real, skew: real, r1: real, r2: real)
    ensures (h + skew) * r1 + (h - skew) * r2 == h * r1 + h * r2 + skew * (r1 - r2)
  {}

  /** A beta-weighted book is marked differently from what closing it would realise. */
  lemma MarkCanDiffer()
    ensures exists pos: Position, m: Market, bar: int ::
              pos.notional1 + pos.notional2 == pos.notional && Mark(pos, m, bar) != Unrealized(pos, m, bar)
  {
    var m := Market((s: string, b: int) => if s == "A" then 110.0 else 100.0, 2, s => true);
    var pos := Position(Long, "A", "B", 100.0, 100.0, 0, 100.0, 60.0, 40.0, 0.0, None, 0.0, 0.1, 0.0);
    assert Mark(pos, m, 1) == 5.0 && Unrealized(pos, m, 1) == 6.0;
  }

  /** Each leg earns on its own notional: moving only one symbol's price changes a long position's P&L by
      that leg's notional for the part the price moved by, rising with the first symbol and falling with the
      second; and at its entry prices a position has earned nothing. */
  lemma LegsEarnOnTheirOwn(pos: Position, m: Market, b1: int, b2: int)
    requires pos.side == Long && pos.entry1 != 0.0 && pos.entry2 != 0.0
    ensures m.price(pos.sym2, b1) == m.price(pos.sym2, b2) ==>
              (Unrealized(pos, m, b2) - Unrealized(pos, m, b1)) * pos.entry1
              == pos.notional1 * (m.price(pos.sym1, b2) - m.price(pos.sym1, b1))
    ensures m.price(pos.sym1, b1) == m.price(pos.sym1, b2) ==>
              (Unrealized(pos, m, b2) - Unrealized(pos, m, b1)) * pos.entry2
              == -pos.notional2 * (m.price(pos.sym2, b2) - m.price(pos.sym2, b1))
    ensures m.price(pos.sym1, b1) == pos.entry1 && m.price(pos.sym2, b1) == pos.entry2 ==> Unrealized(pos, m, b1) == 0.0
  {
    LegMoves(pos.entry1, m.price(pos.sym1, b1), m.price(pos.sym1, b2), true);
    LegMoves(pos.entry2, m.price(pos.sym2, b1), m.price(pos.sym2, b2), false);
    hide LegReturn;
    var r1, s1, r2, s2 := Return1(pos, m, b1), Return1(pos, m, b2), Return2(pos, m, b1), Return2(pos, m, b2);
    LegChange(pos.notional1, r1, s1, pos.entry1);
    LegChange(pos.notional2, r2, s2, pos.entry2);
    assert pos.notional1 * 0.0 + pos.notional2 * 0.0 == 0.0;
  }

  lemma LegMoves(entry: real, x: real, y: real, held: bool)
    requires entry != 0.0
    ensures (LegReturn(entry, y, held) - LegReturn(entry, x, held)) * entry == if held then y - x else x - y
    ensures x == entry ==> LegReturn(entry, x, held) == 0.0
  {
    var a, b := LegReturn(entry, x, held), LegReturn(entry, y, held);
    DivideBack(if held then x - entry else entry - x, entry);
    DivideBack(if held then y - entry else entry - y, entry);
    assert (b - a) * entry == b * entry - a * entry;
  }

  lemma LegChange(n: real, r: real, s: real, entry: real)
    ensures (n * s - n * r) * entry == n * ((s - r) * entry)
  {}

  /** A leg entered at a price of zero earns nothing. */
  lemma UnpricedLegsEarnNothing(pos: Position, m: Market, bar: int)
    ensures pos.entry1 == 0.0 && pos.entry2 == 0.0 ==> Unrealized(pos, m, bar) == 0.0
    ensures pos.entry1 == 0.0 ==> Unrealized(pos, m, bar) == pos.notional2 * Return2(pos, m, bar)
    ensures pos.entry2 == 0.0 ==> Unrealized(pos, m, bar) == pos.notional1 * Return1(pos, m, bar)
  {}

  /** Reversing the side of a position reverses its profit. */
  lemma SidesOppose(pos: Position, m: Market, bar: int)
    ensures Unrealized(pos.(side := if pos.side == Long then Short else Long), m, bar) == -Unrealized(pos, m, bar)
  {
    var other := pos.(side := if pos.side == Long then Short else Long);
    assert Return1(other, m, bar) == -Return1(pos, m, bar);
    assert Return2(other, m, bar) == -Return2(pos, m, bar);
    assert pos.notional1 * -Return1(pos, m, bar) == -(pos.notional1 * Return1(pos, m, bar));
    assert pos.notional2 * -Return2(pos, m, bar) == -(pos.notional2 * Return2(pos, m, bar));
  }

  /** A long pair gains when its first symbol rises, or its second falls, other things equal. */
  lemma LongGains(pos: Position, m: Market, b1: int, b2: int)
    requires pos.side == Long && pos.entry1 > 0.0 && pos.entry2 > 0.0
    requires pos.notional1 >= 0.0 && pos.notional2 >= 0.0
    requires m.price(pos.sym1, b1) <= m.price(pos.sym1, b2) && m.price(pos.sym2, b1) >= m.price(pos.sym2, b2)
    ensures Unrealized(pos, m, b1) <= Unrealized(pos, m, b2)
  {
    DivideKeepsOrder(m.price(pos.sym1, b1) - pos.entry1, m.price(pos.sym1, b2) - pos.entry1, pos.entry1);
    DivideKeepsOrder(pos.entry2 - m.price(pos.sym2, b1), pos.entry2 - m.price(pos.sym2, b2), pos.entry2);
    ScaleKeepsOrder(Return1(pos, m, b1), Return1(pos, m, b2), pos.notional1);
    ScaleKeepsOrder(Return2(pos, m, b1), Return2(pos, m, b2), pos.notional2);
  }

  lemma DivideKeepsOrder(a: real, b: real, d: real)
    requires a <= b && d > 0.0
    ensures a / d <= b / d
  {}

  lemma ScaleKeepsOrder(a: real, b: real, k: real)
    requires a <= b && k >= 0.0
    ensures k * a <= k * b
  {}

  // ---- Closing ----

  /** Exit, borrow and funding charges of a close: the cost model as a function of the position
      and the days it was held. */
  type Charges = (Position, nat) -> real

  datatype Closed = Closed(daily: real, full: real, days: nat)

  /** Exits fill at the bar after the decision, or at the last bar when there is none. */
  function ExecBar(m: Market, bar: int): int {
    if bar + 1 <= m.bars - 1 then bar + 1 else m.bars - 1
  }

  /** `close_position`: gross leg returns at the fill bar, less charges; the round trip also
      carries the entry cost. */
  function ClosePosition(pos: Position, m: Market, charges: Charges, bar: int): Closed {
    var at := ExecBar(m, bar);
    var days := if at - pos.entryBar > 0 then at - pos.entryBar else 0;
    var ret1 := if pos.side == Long
                then if pos.entry1 != 0.0 then (m.price(pos.sym1, at) - pos.entry1) / pos.entry1 else 0.0
                else if pos.entry1 != 0.0 then (pos.entry1 - m.price(pos.sym1, at)) / pos.entry1 else 0.0;
    var ret2 := if pos.side == Long
                then if pos.entry2 != 0.0 then (pos.entry2 - m.price(pos.sym2, at)) / pos.entry2 else 0.0
                else if pos.entry2 != 0.0 then (m.price(pos.sym2, at) - pos.entry2) / pos.entry2 else 0.0;
    var daily := pos.notional1 * ret1 + pos.notional2 * ret2 - charges(pos, days);
    Closed(daily, daily - pos.entryCost, days)
  }

  /** A close realises the book's own valuation at the fill bar, less charges, and the round
      trip is lower by exactly the entry cost, which was charged on entry. */
  lemma CloseRealisesTheMark(pos: Position, m: Market, charges: Charges, bar: int)
    ensures var c, at := ClosePosition(pos, m, charges, bar), if bar + 1 < m.bars then bar + 1 else m.bars - 1;
            && c.daily == Unrealized(pos, m, at) - charges(pos, c.days)
            && c.daily - c.full == pos.entryCost
            && (0 <= bar < m.bars ==> bar <= at < m.bars)
            && (if pos.entryBar <= at then pos.entryBar + c.days == at else c.days == 0)
  {}

  // ---- Ranking for the tier-2 drawdown response ----

  ghost predicate Ranked(es: seq<Entry>, m: Market, bar: int) {
    forall i, j :: 0 <= i < j < |es| ==> Unrealized(es[i].pos, m, bar) <= Unrealized(es[j].pos, m, bar)
  }

  /** Stable insertion: after the entries that are no better, before the first better one. */
  function Insert(es: seq<Entry>, e: Entry, m: Market, bar: int): (r: seq<Entry>)
    ensures multiset(r) == multiset(es) + multiset{e}
  {
    if |es| == 0 then [e]
    else if Unrealized(es[|es| - 1].pos, m, bar) <= Unrealized(e.pos, m, bar) then es + [e]
    else
      assert es == es[..|es| - 1] + [es[|es| - 1]];
      Insert(es[..|es| - 1], e, m, bar) + [es[|es| - 1]]
  }

  /** `sorted(keys, key=unrealized_pnl)`: a stable sort of the book. */
  function Rank(es: seq<Entry>, m: Market, bar: int): (r: seq<Entry>)
    ensures multiset(r) == multiset(es)
  {
    if |es| == 0 then [] else
      assert es == es[..|es| - 1] + [es[|es| - 1]];
      Insert(Rank(es[..|es| - 1], m, bar), es[|es| - 1], m, bar)
  }

  lemma {:induction false} InsertRanked(es: seq<Entry>, e: Entry, m: Market, bar: int)
    requires Ranked(es, m, bar)
    ensures Ranked(Insert(es, e, m, bar), m, bar)
  {
    hide Unrealized;
    if |es| > 0 && Unrealized(es[|es| - 1].pos, m, bar) > Unrealized(e.pos, m, bar) {
      var head := es[..|es| - 1];
      InsertRanked(head, e, m, bar);
      var r := Insert(head, e, m, bar);
      forall i | 0 <= i < |r| ensures Unrealized(r[i].pos, m, bar) <= Unrealized(es[|es| - 1].pos, m, bar) {
        assert r[i] in multiset(r);
        assert r[i] in multiset(head) || r[i] == e;
      }
    }
  }

  lemma {:induction false} RankSorts(es: seq<Entry>, m: Market, bar: int)
    ensures Ranked(Rank(es, m, bar), m, bar)
  {
    if |es| > 0 {
      RankSorts(es[..|es| - 1], m, bar);
      InsertRanked(Rank(es[..|es| - 1], m, bar), es[|es| - 1], m, bar);
    }
  }

  /** `weakest_positions`: the keys of the first n entries of the ranking. */
  function Weakest(open: seq<Entry>, m: Market, bar: int, n: nat): seq<string> {
    var r := Rank(open, m, bar);
    KeyList(r[..if n < |r| then n else |r|])
  }

  /** The keys chosen are in the book, pairwise distinct, as many as asked for, and no position
      kept is worth less than one chosen. */
  lemma WeakestAreWeakest(open: seq<Entry>, m: Market, bar: int, n: nat)
    requires Distinct(open)
    ensures var ks := Weakest(open, m, bar, n);
            && |ks| == (if n < |open| then n else |open|)
            && (forall i, j :: 0 <= i < j < |ks| ==> ks[i] != ks[j])
            && (forall k :: k in ks ==> k in Keys(open))
            && (forall e, f :: e in open && f in open && e.key in ks && f.key !in ks ==>
                  Unrealized(e.pos, m, bar) <= Unrealized(f.pos, m, bar))
  {
    var r := Rank(open, m, bar);
    var c := if n < |r| then n else |r|;
    var ks := KeyList(r[..c]);
    assert |r| == |multiset(r)| == |multiset(open)| == |open|;
    PermutedDistinct(open, r);
    forall k | k in ks ensures k in Keys(open) {
      var i :| 0 <= i < |ks| && ks[i] == k;
      SameMembers(r, open, r[i]);
    }
    forall e, f | e in open && f in open && e.key in ks && f.key !in ks
      ensures Unrealized(e.pos, m, bar) <= Unrealized(f.pos, m, bar)
    {
      SameMembers(open, r, e);
      SameMembers(open, r, f);
      RankSorts(open, m, bar);
      CutOrders(r, m, bar, c, e, f);
    }
  }

  lemma CutOrders(r: seq<Entry>, m: Market, bar: int, c: nat, e: Entry, f: Entry)
    requires Distinct(r) && Ranked(r, m, bar) && c <= |r| && e in r && f in r
    requires e.key in KeyList(r[..c]) && f.key !in KeyList(r[..c])
    ensures Unrealized(e.pos, m, bar) <= Unrealized(f.pos, m, bar)
  {
    var ks := KeyList(r[..c]);
    var i :| 0 <= i < |ks| && ks[i] == e.key;
    var i' :| 0 <= i' < |r| && r[i'] == e;
    var j :| 0 <= j < |r| && r[j] == f;
    assert i == i';
    assert forall k :: 0 <= k < c ==> ks[k] == r[k].key;
  }

  lemma SameMembers(a: seq<Entry>, b: seq<Entry>, e: Entry)
    requires multiset(a) == multiset(b) && e in a
    ensures e in b
  {
    assert e in multiset(b);
  }

  lemma PermutedDistinct(a: seq<Entry>, b: seq<Entry>)
    requires Distinct(a) && multiset(a) == multiset(b)
    ensures Distinct(b)
  {
    forall i, j | 0 <= i < j < |b| ensures b[i].key != b[j].key {
      SameMembers(b, a, b[i]);
      SameMembers(b, a, b[j]);
      DistinctOnce(a, b[i]);
      if b[i] == b[j] { CountedTwice(b, i, j); }
    }
  }

  lemma CountedTwice(b: seq<Entry>, i: int, j: int)
    requires 0 <= i < j < |b| && b[i] == b[j]
    ensures multiset(b)[b[i]] >= 2
  {
    assert b == b[..j] + b[j..];
    assert b[i] == b[..j][i] && b[i] == b[j..][0];
    assert b[i] in b[..j] && b[i] in b[j..];
    assert multiset(b) == multiset(b[..j]) + multiset(b[j..]);
  }

  lemma {:induction false} DistinctOnce(a: seq<Entry>, e: Entry)
    requires Distinct(a)
    ensures multiset(a)[e] <= 1
  {
    if |a| > 0 {
      assert a == [a[0]] + a[1..];
      DistinctOnce(a[1..], e);
      assert a[0] == e ==> e !in a[1..];
    }
  }

  // ---- The book as an object ----

  /** `SimulatedOrderBook`: the dict kept by the simulator, updated in place. */
  class SimulatedOrderBook {
    var positions: seq<Entry>

    ghost predicate Valid()
      reads this
    {
      Distinct(positions)
    }

    constructor ()
      ensures Valid() && positions == []
    {
      positions := [];
    }

    /** `__setitem__` / `open`: an existing key keeps its place, a new one goes last. */
    method Open(key: string, pos: Position)
      requires Valid()
      modifies this
      ensures Valid() && Keys(positions) == old(Keys(positions)) + {key}
      ensures key !in old(Keys(positions)) ==> positions == old(positions) + [Entry(key, pos)]
      ensures key in old(Keys(positions)) ==>
                positions == old(positions)[old(IndexOf(positions, key)) := Entry(key, pos)]
    {
      var i := IndexOf(positions, key);
      if i < |positions| {
        ReplaceKeys(positions, i, pos);
        assert positions[i] in positions;
        positions := positions[i := Entry(key, pos)];
      } else {
        PutKeys(positions, key, pos);
        positions := positions + [Entry(key, pos)];
      }
    }

    /** `pop` / `close`: a KeyError (None) leaves the book alone. */
    method Pop(key: string) returns (pos: Option<Position>)
      requires Valid()
      modifies this
      ensures Valid()
      ensures pos == None <==> key !in old(Keys(positions))
      ensures pos == None ==> positions == old(positions)
      ensures pos.Some? ==> Entry(key, pos.value) in old(positions)
      ensures pos.Some? ==> positions == Take(old(positions), old(IndexOf(positions, key)))
      ensures Keys(positions) == old(Keys(positions)) - {key}
    {
      var i := IndexOf(positions, key);
      if i == |positions| { return None; }
      pos := Some(positions[i].pos);
      TakeKeys(positions, i);
      positions := Take(positions, i);
    }
  }
}
