/** Walk-forward splits with an expanding training window (backtests/walk_forward.py). */
module WalkForward {
  import opened Foundations

  datatype Split<T> = Split(train: seq<T>, test: seq<T>)

  /** `TooFewRows` and `NoTraining` are the two complaints about not having enough rows. */
  datatype Result<T> = Splits(splits: seq<Split<T>>) | BadPeriods | TooFewRows | NoTraining

  /** Conversion to an integer cuts towards zero. */
  function Truncate(x: real): int { if x >= 0.0 then x.Floor else -(-x).Floor }

  /** Rows set aside for testing. */
  function Reserved(n: nat, k: int, ratio: real): real
    requires k >= 1
  {
    n as real * ratio * k as real / (k + 1) as real
  }

  /** Rows of one test block. */
  function BlockRows(n: nat, k: int, ratio: real): (rows: int)
    requires k >= 1
    ensures rows >= 1
  {
    var all := Truncate(Reserved(n, k, ratio));
    if all / k >= 1 then all / k else 1
  }

  /** A test block has the whole rows of its share, the ratio's part of all rows over k + 1, or one row where that
      share is smaller; rounding in two steps and towards zero loses nothing. */
  lemma BlockRowsExactly(n: nat, k: int, ratio: real)
    requires k >= 1
    ensures var rows := BlockRows(n, k, ratio);
            && (rows == 1 || rows as real * (k + 1) as real <= n as real * ratio)
            && n as real * ratio < (rows + 1) as real * (k + 1) as real
  {
    var share, m := n as real * ratio, (k + 1) as real;
    var x := Reserved(n, k, ratio);
    hide Reserved, Truncate;
    ReservedShare(n, k, ratio);
    var all, rows := Truncate(x), BlockRows(n, k, ratio);
    assert rows == if all / k >= 1 then all / k else 1;
    hide BlockRows;
    WholeRows(x, all, k, rows);
    if all / k >= 1 { AtLeast(share, m, k as real, x, rows as real); }
    AtMost(share, m, k as real, x, rows as real);
  }

  lemma ReservedShare(n: nat, k: int, ratio: real)
    requires k >= 1
    ensures Reserved(n, k, ratio) * (k + 1) as real == n as real * ratio * k as real
  {
    DivideBack(n as real * ratio * k as real, (k + 1) as real);
  }

  lemma WholeRows(x: real, all: int, k: int, rows: int)
    requires k >= 1 && all == Truncate(x) && rows == if all / k >= 1 then all / k else 1
    ensures x < k as real * (rows as real + 1.0)
    ensures all / k >= 1 ==> k as real * rows as real <= x
  {
    var q := all / k;
    Quotient(all, k, rows);
    var up, down := k * (rows + 1), k * rows;
    assert up as real == k as real * (rows as real + 1.0) && down as real == k as real * rows as real;
  }

  lemma Quotient(all: int, k: int, rows: int)
    requires k >= 1 && rows == if all / k >= 1 then all / k else 1
    ensures all < k * (rows + 1) && 0 < k * (rows + 1) && (all / k >= 1 ==> 0 < k * rows <= all)
  {
    var q := all / k;
    assert all == k * q + all % k;
    assert k * (rows + 1) == k * q + k + k * (rows - q);
    if q < 1 { assert k * (rows - q) >= 0; }
  }

  lemma AtLeast(share: real, m: real, k: real, x: real, q: real)
    requires m > 0.0 && k > 0.0 && x * m == share * k && k * q <= x
    ensures q * m <= share
  {
    ProductOrder(m, k * q, x);
    assert k * q * m == q * m * k;
    ProductOrder(k, q * m, share);
  }

  lemma AtMost(share: real, m: real, k: real, x: real, rows: real)
    requires m > 0.0 && k > 0.0 && x * m == share * k && x < k * (rows + 1.0)
    ensures share < (rows + 1.0) * m
  {
    var r := rows + 1.0;
    ProductOrder(m, k * r, x);
    assert k * r * m == r * m * k;
    ProductOrder(k, r * m, share);
  }

  /** The splits cover the data in order: block after block of `rows` rows is tested, everything before
      it trained on, and the last block ends with the data. */
  ghost predicate Partitions<T>(data: seq<T>, splits: seq<Split<T>>, k: nat, rows: nat) {
    && |splits| == k
    && (forall i :: 0 <= i < k ==> |splits[i].train| > 0 && |splits[i].test| == rows)
    && (forall i, j :: 0 <= i < k && j == i + 1 && j < k ==> splits[j].train == splits[i].train + splits[i].test)
    && (k > 0 ==> splits[k - 1].train + splits[k - 1].test == data)
  }

  method SplitWalkForward<T>(data: seq<T>, k: int, ratio: real) returns (r: Result<T>)
    ensures r.BadPeriods? <==> k < 1
    ensures r.TooFewRows? <==> k >= 1 && |data| < 2 * k
    ensures r.NoTraining? <==> k >= 1 && |data| >= 2 * k && BlockRows(|data|, k, ratio) * k >= |data|
    ensures r.Splits? ==> Partitions(data, r.splits, k, BlockRows(|data|, k, ratio))
    ensures r.NoTraining? ==> ratio > 1.0
    ensures r.Splits? && ratio <= 1.0 ==> |r.splits[0].train| >= |r.splits[0].test|
  {
    hide BlockRows, Start;
    var n := |data|;
    if k < 1 { return BadPeriods; }
    if n < k * 2 { return TooFewRows; }
    var rows := BlockRows(n, k, ratio);
    var first := n - rows * k;
    if ratio <= 1.0 { FirstWindowIsLargest(n, k, ratio); }
    if first < 1 { return NoTraining; }
    var splits: seq<Split<T>> := [];
    for i := 0 to k
      invariant |splits| == i
      invariant forall j :: 0 <= j < i ==> EndsAt(data, splits[j], first, j, rows)
    {
      StartsFit(first, i + 1, rows, k);
      NextStart(first, i, rows);
      var trainEnd := Start(first, i, rows);
      var testEnd := trainEnd + rows;
      var train, test := data[0..trainEnd], data[trainEnd..testEnd];
      if |train| > 0 && |test| > 0 { splits := splits + [Split(train, test)]; }
    }
    StartsFit(first, k, rows, k);
    BlocksPartition(data, splits, first, k, rows);
    return Splits(splits);
  }

  /** First row of test block `i`. */
  function Start(first: nat, i: nat, rows: nat): nat { first + i * rows }

  /** Split `i` trains on the rows before its block and tests on the block. */
  ghost predicate EndsAt<T>(data: seq<T>, s: Split<T>, first: nat, i: nat, rows: nat) {
    && Start(first, i, rows) <= Start(first, i + 1, rows) <= |data|
    && s.train == data[..Start(first, i, rows)]
    && s.test == data[Start(first, i, rows)..Start(first, i + 1, rows)]
  }

  lemma NextStart(first: nat, i: nat, rows: nat)
    ensures Start(first, i + 1, rows) == Start(first, i, rows) + rows && Start(first, i, rows) >= first
    ensures Start(first, 0, rows) == first
  {
    assert (i + 1) * rows == i * rows + rows;
  }

  lemma StartsFit(first: nat, i: nat, rows: nat, k: nat)
    requires i <= k
    ensures Start(first, i, rows) <= Start(first, k, rows) == first + rows * k
  {
    var d: nat := k - i;
    assert k * rows == i * rows + d * rows;
  }

  lemma BlocksPartition<T>(data: seq<T>, splits: seq<Split<T>>, first: nat, k: nat, rows: nat)
    requires |splits| == k >= 1 && first >= 1 && |data| == Start(first, k, rows)
    requires forall j :: 0 <= j < k ==> EndsAt(data, splits[j], first, j, rows)
    ensures Partitions(data, splits, k, rows) && |splits[0].train| == first
  {
    hide Start;
    forall i | 0 <= i < k ensures |splits[i].train| > 0 && |splits[i].test| == rows {
      NextStart(first, i, rows);
      assert EndsAt(data, splits[i], first, i, rows);
    }
    forall i, j | 0 <= i < k && j == i + 1 && j < k
      ensures splits[j].train == splits[i].train + splits[i].test
    {
      assert EndsAt(data, splits[i], first, i, rows) && EndsAt(data, splits[j], first, j, rows);
    }
    assert EndsAt(data, splits[k - 1], first, k - 1, rows);
    assert EndsAt(data, splits[0], first, 0, rows);
    NextStart(first, 0, rows);
  }

  /** All test blocks put together. */
  function Tests<T>(splits: seq<Split<T>>): seq<T> {
    if |splits| == 0 then [] else splits[0].test + Tests(splits[1..])
  }

  /** Every row after the first training window is tested exactly once, in order. */
  lemma {:induction false} EveryLaterRowIsTestedOnce<T>(data: seq<T>, splits: seq<Split<T>>, k: nat, rows: nat, i: nat)
    requires Partitions(data, splits, k, rows) && i < k
    ensures splits[i].train + Tests(splits[i..]) == data
    decreases k - i
  {
    assert splits[i..][1..] == splits[i + 1..];
    if i + 1 < k {
      EveryLaterRowIsTestedOnce(data, splits, k, rows, i + 1);
      assert splits[i + 1].train == splits[i].train + splits[i].test;
    } else {
      assert splits[i + 1..] == [];
    }
  }

  /** For a ratio of at most one, zero and negative ones included, the first training window is at least
      as long as a test block, and so never empty. */
  lemma FirstWindowIsLargest(n: nat, k: nat, ratio: real)
    requires k >= 1 && n >= 2 * k && ratio <= 1.0
    ensures var rows := BlockRows(n, k, ratio); n - rows * k >= rows >= 1
  {
    var x := Reserved(n, k, ratio);
    var all := Truncate(x);
    BlockShare(n, k, ratio);
    assert all as real <= x || all <= 0;
    WholeBlocks(all, n, k);
  }

  /** The reserved rows are at most k/(k+1) of all rows. */
  lemma BlockShare(n: nat, k: nat, ratio: real)
    requires k >= 1 && ratio <= 1.0
    ensures Reserved(n, k, ratio) * (k + 1) as real <= (n * k) as real
  {
    var nk := n as real * k as real;
    var x := n as real * ratio * k as real / (k + 1) as real;
    assert x * (k + 1) as real == n as real * ratio * k as real;
    assert n as real * ratio * k as real == nk * ratio;
    assert nk >= 0.0 && nk * (1.0 - ratio) >= 0.0;
    assert nk == (n * k) as real;
  }

  lemma WholeBlocks(all: int, n: nat, k: nat)
    requires k >= 1 && n >= 2 * k
    requires all <= 0 || all * (k + 1) <= n * k
    ensures var rows := if all / k >= 1 then all / k else 1; rows * k + rows <= n
  {
    if all / k >= 1 {
      var rows := all / k;
      assert rows * k <= all;
      assert rows * k * (k + 1) <= all * (k + 1) <= n * k;
      assert (rows * (k + 1)) * k <= n * k;
    }
  }

  /** Beyond one the second complaint is reached: ten rows, two periods and a ratio of two. */
  lemma LargeRatioLeavesNoTraining()
    ensures BlockRows(10, 2, 2.0) * 2 >= 10
  {
    assert 10.0 * 2.0 * 2.0 / 3.0 >= 13.0 && 10.0 * 2.0 * 2.0 / 3.0 < 14.0;
  }
}
