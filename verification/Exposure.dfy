/** Per-symbol exposure bookkeeping of the concentration limits
    (execution/concentration_limits.py). */
module Exposure {
  import opened Foundations

  type Symbol = string
  type Key = string

  datatype Position = Position(first: Symbol, second: Symbol, long: bool, notional: real)

  datatype Record = Record(long: real, short: real, net: real, count: int, pairs: set<Key>)

  /** Open positions and the records kept per symbol. */
  datatype Ledger = Ledger(positions: map<Key, Position>, records: map<Symbol, Record>)

  const Nothing: Record := Record(0.0, 0.0, 0.0, 0, {})
  const Empty: Ledger := Ledger(map[], map[])

  function Of(l: Ledger, s: Symbol): Record { if s in l.records then l.records[s] else Nothing }

  function Gross(r: Record): real { Abs(r.long) + Abs(r.short) }

  /** Exposure in percent of the AUM; nothing counts against an AUM that is not positive. */
  function Share(gross: real, aum: real): real {
    if aum <= 0.0 || gross == 0.0 then 0.0 else gross / aum * 100.0
  }

  // ---- The two record updates ----

  function Raise(r: Record, long: bool, notional: real, key: Key): Record {
    var l := if long then r.long + notional else r.long;
    var s := if long then r.short else r.short + notional;
    Record(l, s, l - s, r.count + 1, r.pairs + {key})
  }

  function Lower(r: Record, long: bool, notional: real, key: Key): Record {
    var l := if long then Max(0.0, r.long - notional) else r.long;
    var s := if long then r.short else Max(0.0, r.short - notional);
    Record(l, s, l - s, if r.count >= 1 then r.count - 1 else 0, r.pairs - {key})
  }

  function Added(l: Ledger, key: Key, p: Position): Ledger {
    var once := l.records[p.first := Raise(Of(l, p.first), p.long, p.notional, key)];
    var l' := Ledger(l.positions[key := p], once);
    l'.(records := once[p.second := Raise(Of(l', p.second), !p.long, p.notional, key)])
  }

  function LowerIn(records: map<Symbol, Record>, s: Symbol, long: bool, notional: real, key: Key): map<Symbol, Record> {
    if s in records then records[s := Lower(records[s], long, notional, key)] else records
  }

  function Removed(l: Ledger, key: Key): Ledger {
    if key !in l.positions then l else
      var p := l.positions[key];
      Ledger(l.positions - {key},
             LowerIn(LowerIn(l.records, p.first, p.long, p.notional, key), p.second, !p.long, p.notional, key))
  }

  datatype Limits = Limits(maxPct: real, aum: real)

  datatype Verdict = Allowed | TooMuch(symbol: Symbol, pct: real)

  /** Share of the symbol were the position added. */
  function Projected(c: Limits, l: Ledger, s: Symbol, notional: real, long: bool): real {
    var r := Of(l, s);
    Share(Abs(r.long + if long then notional else 0.0) + Abs(r.short + if long then 0.0 else notional), c.aum)
  }

  function Judge(c: Limits, l: Ledger, p: Position): Verdict {
    var one, two := Projected(c, l, p.first, p.notional, p.long), Projected(c, l, p.second, p.notional, !p.long);
    if one > c.maxPct then TooMuch(p.first, one) else if two > c.maxPct then TooMuch(p.second, two) else Allowed
  }

  function Add(c: Limits, l: Ledger, key: Key, p: Position): Ledger {
    if Judge(c, l, p) == Allowed then Added(l, key, p) else l
  }

  // ---- What the records should say ----

  predicate Touches(p: Position, s: Symbol) { p.first == s || p.second == s }

  predicate IsLong(p: Position, s: Symbol) { (p.first == s && p.long) || (p.second == s && !p.long) }

  predicate IsShort(p: Position, s: Symbol) { (p.first == s && !p.long) || (p.second == s && p.long) }

  function LongIn(s: Symbol): Position -> real { p => if IsLong(p, s) then p.notional else 0.0 }

  function ShortIn(s: Symbol): Position -> real { p => if IsShort(p, s) then p.notional else 0.0 }

  function PairsOf(positions: map<Key, Position>, s: Symbol): set<Key> {
    set k | k in positions && Touches(positions[k], s)
  }

  predicate Proper(p: Position) { p.first != p.second && p.notional >= 0.0 }

  /** The record of a symbol read off the open positions. */
  ghost function Truth(positions: map<Key, Position>, s: Symbol): Record {
    var l, sh := Total(positions, LongIn(s)), Total(positions, ShortIn(s));
    Record(l, sh, l - sh, |PairsOf(positions, s)|, PairsOf(positions, s))
  }

  /** Every record is what the open positions say. */
  ghost predicate RecordsMatch(l: Ledger) {
    forall s :: Of(l, s) == Truth(l.positions, s)
  }

  /** They do, and the positions are pairs of two symbols with a notional that is not negative: what the
      records need to survive removals. */
  ghost predicate Exact(l: Ledger) {
    RecordsMatch(l) && forall k :: k in l.positions ==> Proper(l.positions[k])
  }

  lemma EmptyIsExact()
    ensures Exact(Empty)
  {
    forall s ensures Of(Empty, s) == Truth(map[], s) {
      assert PairsOf(map[], s) == {};
    }
  }

  lemma TotalsNonNegative(positions: map<Key, Position>, s: Symbol)
    requires forall k :: k in positions ==> Proper(positions[k])
    ensures Total(positions, LongIn(s)) >= 0.0 && Total(positions, ShortIn(s)) >= 0.0
  {
    TotalNonNegative(positions, LongIn(s));
    TotalNonNegative(positions, ShortIn(s));
  }

  /** Opening a position raises the true record of each of its two symbols once and no other. */
  lemma TruthAfterAdd(positions: map<Key, Position>, key: Key, p: Position, s: Symbol)
    requires key !in positions && p.first != p.second
    ensures var t, t' := Truth(positions, s), Truth(positions[key := p], s);
            t' == if Touches(p, s) then Raise(t, IsLong(p, s), p.notional, key) else t
  {
    TotalStore(positions, LongIn(s), key, p);
    TotalStore(positions, ShortIn(s), key, p);
    var before, after := PairsOf(positions, s), PairsOf(positions[key := p], s);
    assert after == if Touches(p, s) then before + {key} else before;
    assert key !in before;
  }

  lemma PairsAfterRemove(positions: map<Key, Position>, key: Key, s: Symbol)
    requires key in positions
    ensures var before, after := PairsOf(positions, s), PairsOf(positions - {key}, s);
            if Touches(positions[key], s) then after == before - {key} && |after| == |before| - 1 else after == before
  {
    var before, after := PairsOf(positions, s), PairsOf(positions - {key}, s);
    if Touches(positions[key], s) {
      assert after == before - {key};
      assert key in before;
    } else {
      assert after == before;
    }
  }

  /** Closing one takes it off the true record of each of its two symbols and no other. */
  lemma TruthAfterRemove(positions: map<Key, Position>, key: Key, s: Symbol)
    requires key in positions && positions[key].first != positions[key].second
    ensures var p := positions[key];
            var t, t' := Truth(positions, s), Truth(positions - {key}, s);
            && t' == (if Touches(p, s) then Less(t, IsLong(p, s), p.notional, key) else t)
            && (Touches(p, s) ==> t.count >= 1)
  {
    hide Total, PairsOf;
    TotalDrop(positions, LongIn(s), key);
    TotalDrop(positions, ShortIn(s), key);
    PairsAfterRemove(positions, key, s);
  }

  // ---- Runs ----

  /** An accepted add keeps the records equal to the sums over what is open if and only if its key is
      new and its two symbols differ; the sign of the notional does not matter. A rejected add changes
      nothing. */
  lemma AddKeepsRecords(c: Limits, l: Ledger, key: Key, p: Position)
    requires RecordsMatch(l)
    ensures Judge(c, l, p) != Allowed ==> Add(c, l, key, p) == l
    ensures Judge(c, l, p) == Allowed ==>
              (RecordsMatch(Add(c, l, key, p)) <==> key !in l.positions && p.first != p.second)
  {
    hide RecordsMatch, Added, Judge;
    if key in l.positions { ReusedKeyBreaks(l, key, p); }
    else if p.first == p.second { SelfPairBreaks(l, key, p); }
    else { AddedMatches(l, key, p); }
  }

  lemma AddedMatches(l: Ledger, key: Key, p: Position)
    requires RecordsMatch(l) && key !in l.positions && p.first != p.second
    ensures RecordsMatch(Added(l, key, p))
  {
    hide Truth, Raise;
    var r := Added(l, key, p);
    forall s ensures Of(r, s) == Truth(r.positions, s) {
      TruthAfterAdd(l.positions, key, p, s);
      assert Of(l, s) == Truth(l.positions, s);
    }
  }

  /** Reusing the key of an open position counts a symbol of the old one twice or leaves it stale. */
  lemma ReusedKeyBreaks(l: Ledger, key: Key, p: Position)
    requires RecordsMatch(l) && key in l.positions
    ensures !RecordsMatch(Added(l, key, p))
  {
    hide Added, Total, Of;
    var r, s := Added(l, key, p), l.positions[key].first;
    assert Of(l, s) == Truth(l.positions, s);
    assert key in PairsOf(l.positions, s);
    AddedCounts(l, key, p, s);
    if Touches(p, s) {
      assert Of(r, s).pairs == Of(l, s).pairs;
      assert Of(r, s).count != |Of(r, s).pairs|;
    } else {
      assert key !in PairsOf(r.positions, s);
    }
    assert Of(r, s) != Truth(r.positions, s);
  }

  lemma AddedCounts(l: Ledger, key: Key, p: Position, s: Symbol)
    ensures var r := Added(l, key, p);
            && r.positions == l.positions[key := p]
            && if Touches(p, s) then Of(r, s).pairs == Of(l, s).pairs + {key} && Of(r, s).count > Of(l, s).count
               else Of(r, s) == Of(l, s)
  {}

  /** A pair of one symbol with itself is counted twice. */
  lemma SelfPairBreaks(l: Ledger, key: Key, p: Position)
    requires RecordsMatch(l) && key !in l.positions && p.first == p.second
    ensures !RecordsMatch(Added(l, key, p))
  {
    hide Total;
    var r, s := Added(l, key, p), p.first;
    assert Of(l, s) == Truth(l.positions, s);
    assert key !in PairsOf(l.positions, s);
    SelfPairIsRaisedTwice(l, key, p);
    assert Of(r, s).count == Of(l, s).count + 2 && Of(r, s).pairs == Of(l, s).pairs + {key};
    assert Of(r, s).count != |Of(r, s).pairs|;
    assert Of(r, s) != Truth(r.positions, s);
  }

  /** The side of a record a position counts on, less the position: negative exactly where the floor at
      zero binds. */
  function Rest(l: Ledger, s: Symbol, p: Position): real {
    (if IsLong(p, s) then Of(l, s).long else Of(l, s).short) - p.notional
  }

  /** Where signs matter: a removal keeps the records equal to the sums if and only if neither floor
      binds. With a negative notional open elsewhere one can. */
  lemma RemoveKeepsRecords(l: Ledger, key: Key)
    requires RecordsMatch(l) && (key in l.positions ==> l.positions[key].first != l.positions[key].second)
    ensures key !in l.positions ==> Removed(l, key) == l
    ensures key in l.positions ==>
              var p := l.positions[key];
              (RecordsMatch(Removed(l, key)) <==> Rest(l, p.first, p) >= 0.0 && Rest(l, p.second, p) >= 0.0)
  {
    if key in l.positions {
      hide RecordsMatch, Removed, Rest;
      var p := l.positions[key];
      if Rest(l, p.first, p) < 0.0 { FloorBreaks(l, key, p.first); }
      else if Rest(l, p.second, p) < 0.0 { FloorBreaks(l, key, p.second); }
      else { RemovedMatches(l, key); }
    }
  }

  lemma FloorBreaks(l: Ledger, key: Key, s: Symbol)
    requires RecordsMatch(l) && key in l.positions && l.positions[key].first != l.positions[key].second
    requires Touches(l.positions[key], s) && Rest(l, s, l.positions[key]) < 0.0
    ensures !RecordsMatch(Removed(l, key))
  {
    hide Total, PairsOf;
    var r, p := Removed(l, key), l.positions[key];
    TruthAfterRemove(l.positions, key, s);
    TouchedIsRecorded(l, key, s);
    assert Of(l, s) == Truth(l.positions, s);
    assert Of(r, s) == Lower(Of(l, s), IsLong(p, s), p.notional, key) by { RemovedLowers(l, key, s); }
    assert Of(r, s) != Truth(r.positions, s);
  }

  lemma RemovedLowers(l: Ledger, key: Key, s: Symbol)
    requires key in l.positions && l.positions[key].first != l.positions[key].second
    requires s in l.records
    ensures var p := l.positions[key];
            Of(Removed(l, key), s) == if Touches(p, s) then Lower(Of(l, s), IsLong(p, s), p.notional, key) else Of(l, s)
  {
    hide Lower;
  }

  lemma RemovedMatches(l: Ledger, key: Key)
    requires RecordsMatch(l) && key in l.positions && l.positions[key].first != l.positions[key].second
    requires Rest(l, l.positions[key].first, l.positions[key]) >= 0.0
    requires Rest(l, l.positions[key].second, l.positions[key]) >= 0.0
    ensures RecordsMatch(Removed(l, key))
  {
    hide Truth, Lower;
    var r, p := Removed(l, key), l.positions[key];
    forall s ensures Of(r, s) == Truth(r.positions, s) {
      TruthAfterRemove(l.positions, key, s);
      assert Of(l, s) == Truth(l.positions, s);
      if Touches(p, s) {
        TouchedIsRecorded(l, key, s);
        LoweredIs(Of(l, s), IsLong(p, s), p.notional, key);
      }
      if s in l.records { RemovedLowers(l, key, s); }
    }
  }

  /** A record lowered where no floor binds. */
  function Less(r: Record, long: bool, notional: real, key: Key): Record {
    var l := if long then r.long - notional else r.long;
    var s := if long then r.short else r.short - notional;
    Record(l, s, l - s, r.count - 1, r.pairs - {key})
  }

  lemma LoweredIs(r: Record, long: bool, notional: real, key: Key)
    requires r.count >= 1
    ensures Lower(r, long, notional, key) == Less(r, long, notional, key)
            <==> (if long then r.long else r.short) >= notional
  {}

  lemma AddedIsExact(l: Ledger, key: Key, p: Position)
    requires Exact(l) && key !in l.positions && Proper(p)
    ensures Exact(Added(l, key, p))
  {
    hide RecordsMatch;
    AddedMatches(l, key, p);
  }

  /** With notionals that are not negative the floors never bind. */
  lemma RemoveKeepsExact(l: Ledger, key: Key)
    requires Exact(l)
    ensures Exact(Removed(l, key))
  {
    if key in l.positions {
      hide RecordsMatch;
      var p := l.positions[key];
      assert Proper(p);
      RestIsOthers(l, key, p.first);
      RestIsOthers(l, key, p.second);
      RemoveKeepsRecords(l, key);
    }
  }

  lemma RestIsOthers(l: Ledger, key: Key, s: Symbol)
    requires Exact(l) && key in l.positions && Touches(l.positions[key], s)
    ensures Rest(l, s, l.positions[key]) >= 0.0
  {
    hide Total, PairsOf;
    assert Of(l, s) == Truth(l.positions, s);
    assert Proper(l.positions[key]);
    TotalDrop(l.positions, LongIn(s), key);
    TotalDrop(l.positions, ShortIn(s), key);
    TotalsNonNegative(l.positions - {key}, s);
  }

  const PLUS := Position("A", "B", true, 3.0)
  const MINUS := Position("A", "C", true, -5.0)

  /** +3 and -5 on one symbol are both let in and recorded exactly; closing the +3 then leaves the
      symbol at 0, where -5 is open. */
  lemma NegativeNotionalBreaksARemoval(c: Limits)
    requires c.maxPct >= 5.0 && c.aum >= 100.0
    ensures var l := Add(c, Add(c, Empty, "A_B", PLUS), "A_C", MINUS);
            && l.positions == map["A_B" := PLUS, "A_C" := MINUS] && RecordsMatch(l)
            && !RecordsMatch(Removed(l, "A_B"))
            && Of(Removed(l, "A_B"), "A").long == 0.0
            && Truth(Removed(l, "A_B").positions, "A").long == -5.0
  {
    hide Added, Removed, Judge, Of, Truth, RecordsMatch, Rest;
    var one := Added(Empty, "A_B", PLUS);
    var both := Added(one, "A_C", MINUS);
    EmptyIsExact();
    AddKeepsRecords(c, Empty, "A_B", PLUS);
    BothAreAllowed(c);
    WitnessRecords();
    AddKeepsRecords(c, one, "A_C", MINUS);
    RemoveKeepsRecords(both, "A_B");
    RemovedPositions(both, "A_B");
    OpenMinus();
  }

  lemma WitnessRecords()
    ensures var one := Added(Empty, "A_B", PLUS);
            var both := Added(one, "A_C", MINUS);
            && one.positions == map["A_B" := PLUS] && both.positions == map["A_B" := PLUS, "A_C" := MINUS]
            && Rest(both, "A", PLUS) == -5.0 && Of(Removed(both, "A_B"), "A").long == 0.0
  {
    var one := Added(Empty, "A_B", PLUS);
    var both := Added(one, "A_C", MINUS);
    assert Of(one, "A") == Raise(Nothing, true, 3.0, "A_B");
    assert Of(both, "A") == Raise(Of(one, "A"), true, -5.0, "A_C");
    hide Added;
    RemovedLowers(both, "A_B", "A");
  }

  lemma OpenMinus()
    ensures Truth(map["A_B" := PLUS, "A_C" := MINUS] - {"A_B"}, "A").long == -5.0
  {
    var open: map<Key, Position> := map["A_C" := MINUS];
    assert map["A_B" := PLUS, "A_C" := MINUS] - {"A_B"} == open;
    TotalDrop(open, LongIn("A"), "A_C");
    assert open - {"A_C"} == map[];
  }

  lemma BothAreAllowed(c: Limits)
    requires c.maxPct >= 5.0 && c.aum >= 100.0
    ensures var one := Added(Empty, "A_B", PLUS);
            Judge(c, Empty, PLUS) == Allowed && Judge(c, one, MINUS) == Allowed
  {
    SmallShare(3.0, c.aum);
    SmallShare(2.0, c.aum);
    SmallShare(5.0, c.aum);
  }

  lemma SmallShare(gross: real, aum: real)
    requires 0.0 <= gross <= 5.0 && aum >= 100.0
    ensures Share(gross, aum) <= 5.0
  {
    var x := gross / aum;
    assert x * aum == gross;
    ProductOrder(aum, x, 0.05);
  }

  lemma TouchedIsRecorded(l: Ledger, key: Key, s: Symbol)
    requires RecordsMatch(l) && key in l.positions && Touches(l.positions[key], s)
    ensures s in l.records
  {
    assert Of(l, s) == Truth(l.positions, s);
    assert key in PairsOf(l.positions, s);
  }

  lemma PositionsDetermineRecords(l: Ledger, m: Ledger, s: Symbol)
    requires RecordsMatch(l) && RecordsMatch(m) && l.positions == m.positions
    ensures Of(l, s) == Of(m, s)
  {}

  /** Closing what was just opened restores every symbol's record. */
  lemma RemoveUndoesAdd(l: Ledger, key: Key, p: Position, s: Symbol)
    requires Exact(l) && key !in l.positions && Proper(p)
    ensures var r := Removed(Added(l, key, p), key); r.positions == l.positions && Of(r, s) == Of(l, s)
  {
    var r := Removed(Added(l, key, p), key);
    AddedCounts(l, key, p, s);
    RemovedPositions(Added(l, key, p), key);
    assert l.positions[key := p] - {key} == l.positions;
    hide Added, Removed, Of, RecordsMatch;
    AddedIsExact(l, key, p);
    RemoveKeepsExact(Added(l, key, p), key);
    PositionsDetermineRecords(r, l, s);
  }

  datatype Op = Open(key: Key, position: Position) | Close(key: Key)

  function Step(c: Limits, l: Ledger, op: Op): Ledger {
    match op case Open(k, p) => Add(c, l, k, p) case Close(k) => Removed(l, k)
  }

  /** Opens use new keys, two symbols and a notional that is not negative. */
  predicate Careful(l: Ledger, op: Op) { op.Open? ==> op.key !in l.positions && Proper(op.position) }

  function Run(c: Limits, l: Ledger, ops: seq<Op>): Ledger
    decreases |ops|
  {
    if |ops| == 0 then l else Run(c, Step(c, l, ops[0]), ops[1..])
  }

  predicate AllCareful(c: Limits, l: Ledger, ops: seq<Op>)
    decreases |ops|
  {
    |ops| == 0 || (Careful(l, ops[0]) && AllCareful(c, Step(c, l, ops[0]), ops[1..]))
  }

  ghost predicate Within(c: Limits, l: Ledger) {
    forall s :: WithinAt(c, l, s)
  }

  predicate WithinAt(c: Limits, l: Ledger, s: Symbol) {
    Share(Gross(Of(l, s)), c.aum) <= c.maxPct
  }

  lemma ShareOfNothing(aum: real)
    ensures Share(Gross(Nothing), aum) == 0.0
  {}

  lemma ShareGrows(g: real, h: real, aum: real)
    requires 0.0 <= g <= h
    ensures Share(g, aum) <= Share(h, aum)
  {
    if aum > 0.0 {
      var x, y := g / aum, h / aum;
      assert x * aum == g && y * aum == h;
      assert (y - x) * aum >= 0.0;
      NonNegativeFactor(y - x, aum);
      NonNegativeFactor(x, aum);
    }
  }

  lemma NonNegativeFactor(x: real, a: real)
    requires a > 0.0 && x * a >= 0.0
    ensures x >= 0.0
  {
    if x < 0.0 { NegativeProduct(-x, a); }
  }

  lemma NegativeProduct(x: real, a: real)
    requires a > 0.0 && x > 0.0
    ensures x * a > 0.0 && (-x) * a == -(x * a)
  {}

  /** After an accepted add the touched symbols have the very shares that were judged. */
  lemma SharesAreAsProjected(c: Limits, l: Ledger, key: Key, p: Position, s: Symbol)
    requires p.first != p.second
    ensures var share := Share(Gross(Of(Added(l, key, p), s)), c.aum);
            if s == p.first then share == Projected(c, l, s, p.notional, p.long)
            else if s == p.second then share == Projected(c, l, s, p.notional, !p.long)
            else share == Share(Gross(Of(l, s)), c.aum)
  {
    hide Share;
  }

  /** So a pair of two symbols is let in exactly when both would be within the limit with it, and a refusal names
      the first of the two that would not, with the share it would have. */
  lemma JudgedByTheOutcome(c: Limits, l: Ledger, key: Key, p: Position)
    requires p.first != p.second
    ensures var r := Added(l, key, p);
            var one, two := Share(Gross(Of(r, p.first)), c.aum), Share(Gross(Of(r, p.second)), c.aum);
            && (Judge(c, l, p) == Allowed <==> one <= c.maxPct && two <= c.maxPct)
            && (Judge(c, l, p).TooMuch? ==>
                  Judge(c, l, p) == if one > c.maxPct then TooMuch(p.first, one) else TooMuch(p.second, two))
  {
    hide Added, Projected, Gross, Of, Share;
    SharesAreAsProjected(c, l, key, p, p.first);
    SharesAreAsProjected(c, l, key, p, p.second);
  }

  /** Without a positive AUM nothing has a share, so every pair is let in, whatever its size. */
  lemma WithoutAumAllIsAllowed(c: Limits, l: Ledger, key: Key, p: Position)
    requires c.aum <= 0.0 && c.maxPct >= 0.0
    ensures Judge(c, l, p) == Allowed && key in Add(c, l, key, p).positions
    ensures forall s :: WithinAt(c, l, s)
  {
    hide Gross, Of;
  }

  /** A pair of a symbol with itself is judged on one leg at a time, so it ends up with a share that was
      never checked: twice the notional is added where once was judged. */
  lemma SelfPairIsJudgedByHalf(c: Limits, l: Ledger, key: Key, p: Position)
    requires p.first == p.second && p.notional >= 0.0
    requires Of(l, p.first).long >= 0.0 && Of(l, p.first).short >= 0.0
    ensures var g := Gross(Of(l, p.first));
            && Gross(Of(Added(l, key, p), p.first)) == g + 2.0 * p.notional
            && (Judge(c, l, p) == Allowed <==> Share(g + p.notional, c.aum) <= c.maxPct)
  {
    hide Share, Added, Of;
    SelfPairIsRaisedTwice(l, key, p);
    var r := Of(l, p.first);
    assert Projected(c, l, p.first, p.notional, p.long) == Share(Gross(r) + p.notional, c.aum);
    assert Projected(c, l, p.first, p.notional, !p.long) == Share(Gross(r) + p.notional, c.aum);
  }

  lemma SelfPairIsRaisedTwice(l: Ledger, key: Key, p: Position)
    requires p.first == p.second
    ensures Of(Added(l, key, p), p.first)
            == Raise(Raise(Of(l, p.first), p.long, p.notional, key), !p.long, p.notional, key)
  {}

  lemma AddedIsWithin(c: Limits, l: Ledger, key: Key, p: Position, s: Symbol)
    requires WithinAt(c, l, s) && Proper(p) && Judge(c, l, p) == Allowed
    ensures WithinAt(c, Added(l, key, p), s)
  {
    hide Share, Added, Projected, Gross, Of;
    SharesAreAsProjected(c, l, key, p, s);
  }

  lemma AddKeepsWithin(c: Limits, l: Ledger, key: Key, p: Position)
    requires Within(c, l) && Proper(p)
    ensures Within(c, Add(c, l, key, p))
  {
    if Judge(c, l, p) == Allowed {
      hide WithinAt, Added, Judge;
      forall s ensures WithinAt(c, Added(l, key, p), s) { AddedIsWithin(c, l, key, p, s); }
    }
  }

  lemma RemovedIsWithin(c: Limits, l: Ledger, key: Key, s: Symbol)
    requires Exact(l) && WithinAt(c, l, s) && key in l.positions
    ensures WithinAt(c, Removed(l, key), s)
  {
    hide Share, Removed, Truth, Exact, Gross, Of;
    var r := Removed(l, key);
    RemoveKeepsExact(l, key);
    ReadOff(l, s);
    ReadOff(r, s);
    RemovedPositions(l, key);
    TruthShrinks(l.positions, key, s);
    ShareGrows(Gross(Of(r, s)), Gross(Of(l, s)), c.aum);
  }

  lemma ReadOff(l: Ledger, s: Symbol)
    requires Exact(l)
    ensures Of(l, s) == Truth(l.positions, s) && forall k :: k in l.positions ==> Proper(l.positions[k])
  {}

  lemma RemovedPositions(l: Ledger, key: Key)
    ensures key in l.positions ==> Removed(l, key).positions == l.positions - {key}
  {}

  lemma TruthShrinks(positions: map<Key, Position>, key: Key, s: Symbol)
    requires key in positions && forall k :: k in positions ==> Proper(positions[k])
    ensures 0.0 <= Gross(Truth(positions - {key}, s)) <= Gross(Truth(positions, s))
  {
    hide Total, PairsOf;
    assert Proper(positions[key]);
    TotalDrop(positions, LongIn(s), key);
    TotalDrop(positions, ShortIn(s), key);
    TotalsNonNegative(positions - {key}, s);
  }

  lemma RemoveKeepsWithin(c: Limits, l: Ledger, key: Key)
    requires Exact(l) && Within(c, l)
    ensures Within(c, Removed(l, key))
  {
    if key in l.positions {
      hide Exact, WithinAt, Removed;
      forall s ensures WithinAt(c, Removed(l, key), s) { RemovedIsWithin(c, l, key, s); }
    }
  }

  lemma StepIsExact(c: Limits, l: Ledger, op: Op)
    requires Exact(l) && Careful(l, op)
    ensures Exact(Step(c, l, op))
  {
    hide Exact, Added, Removed, Judge;
    match op {
      case Open(k, p) => if Judge(c, l, p) == Allowed { AddedIsExact(l, k, p); }
      case Close(k) => RemoveKeepsExact(l, k);
    }
  }

  lemma StepKeeps(c: Limits, l: Ledger, op: Op)
    requires Exact(l) && Within(c, l) && Careful(l, op)
    ensures Exact(Step(c, l, op)) && Within(c, Step(c, l, op))
  {
    StepIsExact(c, l, op);
    hide Exact, Within, Added, Removed, Judge;
    match op {
      case Open(k, p) =>
        AddKeepsWithin(c, l, k, p);
      case Close(k) =>
        RemoveKeepsWithin(c, l, k);
    }
  }

  /** Over every run of careful opens and of closes, the records are the sums over what is open, and no
      symbol's share passes the limit while the AUM stays the same. */
  lemma {:induction false} RunIsExactAndWithin(c: Limits, l: Ledger, ops: seq<Op>)
    requires Exact(l) && Within(c, l) && AllCareful(c, l, ops)
    ensures Exact(Run(c, l, ops)) && Within(c, Run(c, l, ops))
    decreases |ops|
  {
    if |ops| > 0 {
      hide Exact, Within, Step;
      StepKeeps(c, l, ops[0]);
      RunIsExactAndWithin(c, Step(c, l, ops[0]), ops[1..]);
    }
  }

  lemma EmptyIsWithin(c: Limits)
    ensures Within(c, Empty) <==> c.maxPct >= 0.0
  {
    hide Share, Gross;
    ShareOfNothing(c.aum);
    forall s ensures WithinAt(c, Empty, s) <==> c.maxPct >= 0.0 {
      assert Of(Empty, s) == Nothing;
    }
    assert WithinAt(c, Empty, "") <==> c.maxPct >= 0.0;
  }

  /** So over every run of a new manager. */
  lemma EveryRunIsExactAndWithin(c: Limits, ops: seq<Op>)
    requires c.maxPct >= 0.0 && AllCareful(c, Empty, ops)
    ensures Exact(Run(c, Empty, ops)) && Within(c, Run(c, Empty, ops))
  {
    EmptyIsExact();
    EmptyIsWithin(c);
    RunIsExactAndWithin(c, Empty, ops);
  }

  /** Two runs that end with the same open positions end with the same records, whatever came and went
      and was rejected in between, and under whatever limits. */
  lemma RunsWithTheSamePositionsAgree(c: Limits, ops: seq<Op>, d: Limits, others: seq<Op>, s: Symbol)
    requires AllCareful(c, Empty, ops) && AllCareful(d, Empty, others)
    requires Run(c, Empty, ops).positions == Run(d, Empty, others).positions
    ensures Of(Run(c, Empty, ops), s) == Of(Run(d, Empty, others), s)
  {
    hide Run, RecordsMatch;
    EmptyIsExact();
    RunIsExact(c, Empty, ops);
    RunIsExact(d, Empty, others);
    PositionsDetermineRecords(Run(c, Empty, ops), Run(d, Empty, others), s);
  }

  lemma {:induction false} RunIsExact(c: Limits, l: Ledger, ops: seq<Op>)
    requires Exact(l) && AllCareful(c, l, ops)
    ensures Exact(Run(c, l, ops))
    decreases |ops|
  {
    if |ops| > 0 {
      hide Exact, Step;
      StepIsExact(c, l, ops[0]);
      RunIsExact(c, Step(c, l, ops[0]), ops[1..]);
    }
  }

  /** Changing the AUM keeps a symbol within the limit exactly when its gross exposure is at most that
      part of the new AUM: nothing is rechecked, so a smaller AUM can leave symbols above it. */
  lemma UpdatedAumWithin(c: Limits, gross: real, aum: real)
    requires aum > 0.0 && gross >= 0.0 && c.maxPct >= 0.0
    ensures Share(gross, aum) <= c.maxPct <==> 100.0 * gross <= c.maxPct * aum
  {
    var x := gross / aum;
    assert x * aum == gross;
    var d := c.maxPct - 100.0 * x;
    assert d * aum == c.maxPct * aum - 100.0 * gross;
    if d >= 0.0 { assert d * aum >= 0.0; } else { NegativeProduct(-d, aum); }
    if gross == 0.0 { assert c.maxPct * aum >= 0.0; }
  }

  // ---- The manager ----

  class ConcentrationLimitManager {
    const maxPct: real
    var aum: real
    var positions: map<Key, Position>
    var records: map<Symbol, Record>

    constructor (maxPct: real, aum: real)
      ensures this.maxPct == maxPct && this.aum == aum && Contents() == Empty
    {
      this.maxPct, this.aum := maxPct, aum;
      positions, records := map[], map[];
    }

    ghost function Contents(): Ledger reads this { Ledger(positions, records) }

    ghost function Rules(): Limits reads this { Limits(maxPct, aum) }

    method CalculateExposureIfAdded(s: Symbol, long: bool, notional: real) returns (pct: real)
      ensures pct == Projected(Rules(), Contents(), s, notional, long)
    {
      var current := if s in records then records[s] else Nothing;
      var newLong := current.long + if long then notional else 0.0;
      var newShort := current.short + if long then 0.0 else notional;
      var gross := Abs(newLong) + Abs(newShort);
      if aum <= 0.0 || gross == 0.0 { return 0.0; }
      return gross / aum * 100.0;
    }

    method UpdateExposure(s: Symbol, long: bool, notional: real, key: Key)
      modifies this`records
      ensures records == old(records)[s := Raise(Of(old(Contents()), s), long, notional, key)]
    {
      if s !in records { records := records[s := Nothing]; }
      var r := records[s];
      if long { r := r.(long := r.long + notional); } else { r := r.(short := r.short + notional); }
      r := r.(net := r.long - r.short);
      r := r.(count := r.count + 1, pairs := r.pairs + {key});
      records := records[s := r];
    }

    method RemoveExposure(s: Symbol, long: bool, notional: real, key: Key)
      modifies this`records
      ensures records == LowerIn(old(records), s, long, notional, key)
    {
      if s !in records { return; }
      var r := records[s];
      if long { r := r.(long := Max(0.0, r.long - notional)); } else { r := r.(short := Max(0.0, r.short - notional)); }
      r := r.(net := r.long - r.short);
      r := r.(count := if r.count >= 1 then r.count - 1 else 0, pairs := r.pairs - {key});
      records := records[s := r];
    }

    /** `add_position`: a careful add to exact records leaves them exact. */
    method AddPosition(key: Key, p: Position) returns (v: Verdict)
      modifies this`positions, this`records
      ensures v == Judge(Rules(), old(Contents()), p)
      ensures Contents() == Add(Rules(), old(Contents()), key, p)
      ensures positions == if v == Allowed then old(positions)[key := p] else old(positions)
      ensures v != Allowed ==> records == old(records)
    {
      var one := CalculateExposureIfAdded(p.first, p.long, p.notional);
      var two := CalculateExposureIfAdded(p.second, !p.long, p.notional);
      if one > maxPct { return TooMuch(p.first, one); }
      if two > maxPct { return TooMuch(p.second, two); }
      positions := positions[key := p];
      UpdateExposure(p.first, p.long, p.notional, key);
      UpdateExposure(p.second, !p.long, p.notional, key);
      return Allowed;
    }

    method RemovePosition(key: Key)
      modifies this`positions, this`records
      ensures Contents() == Removed(old(Contents()), key)
    {
      if key !in positions { return; }
      var p := positions[key];
      RemoveExposure(p.first, p.long, p.notional, key);
      RemoveExposure(p.second, !p.long, p.notional, key);
      positions := positions - {key};
    }

    /** An AUM that is not positive is refused. */
    method UpdateAum(newAum: real) returns (ok: bool)
      modifies this`aum
      ensures ok <==> newAum > 0.0
      ensures aum == if ok then newAum else old(aum)
    {
      ok := newAum > 0.0;
      if ok { aum := newAum; }
    }

    method ResetAll()
      modifies this`positions, this`records
      ensures Contents() == Empty
    {
      positions, records := map[], map[];
    }

    method GetSymbolConcentration(s: Symbol) returns (pct: real)
      ensures pct == Share(Gross(Of(Contents(), s)), aum)
    {
      hide Share, Gross;
      ShareOfNothing(aum);
      if s !in records { return 0.0; }
      return Share(Gross(records[s]), aum);
    }

    /** What a symbol can still take: nothing exactly when it is at or above the limit. */
    method GetAvailableCapacity(s: Symbol) returns (pct: real)
      ensures pct >= 0.0
      ensures pct == 0.0 <==> Share(Gross(Of(Contents(), s)), aum) >= maxPct
      ensures pct > 0.0 ==> pct + Share(Gross(Of(Contents(), s)), aum) == maxPct
    {
      hide Share, Gross, Of;
      var share := GetSymbolConcentration(s);
      pct := Max(0.0, maxPct - share);
    }
  }
}
