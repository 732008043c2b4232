/** Small vocabulary shared by the models: options, sums of real sequences and
    sums over the entries of a finite map. */
module Foundations {
  datatype Option<+T> = None | Some(value: T)

  function Min(a: real, b: real): real { if a <= b then a else b }

  function Max(a: real, b: real): real { if a >= b then a else b }

  function Abs(a: real): real { if a >= 0.0 then a else -a }

  /** A positive factor keeps order and equality. */
  lemma ProductOrder(b: real, x: real, y: real)
    requires b > 0.0
    ensures x * b <= y * b <==> x <= y
    ensures x * b == y * b <==> x == y
  {
    var d := y - x;
    assert y * b == x * b + d * b;
    ProductSign(d, b);
  }

  /** A product with a positive factor has the sign of the other. */
  lemma ProductSign(d: real, b: real)
    requires b > 0.0
    ensures (d * b > 0.0 <==> d > 0.0) && (d * b >= 0.0 <==> d >= 0.0)
  {
    if d > 0.0 { Positive(d, b); } else if d < 0.0 { Positive(-d, b); assert (-d) * b == -(d * b); }
  }

  lemma Positive(a: real, b: real)
    requires a > 0.0 && b > 0.0
    ensures a * b > 0.0
  {}

  lemma NotNegative(a: real, b: real)
    requires a >= 0.0 && b >= 0.0
    ensures a * b >= 0.0
  {}

  lemma NoDivisors(x: real, y: real)
    ensures x * y == 0.0 <==> x == 0.0 || y == 0.0
  {
    if x != 0.0 && y != 0.0 { assert x * y / y == x; }
  }

  lemma Divides(x: real, y: real, d: real)
    requires d != 0.0 && x * d == y * d
    ensures x == y
  {
    var e := x - y;
    assert x * d == y * d + e * d;
    NoDivisors(e, d);
  }

  lemma DivideBack(a: real, d: real)
    requires d != 0.0
    ensures a / d * d == a
  {}

  /** Sum of a sequence, read from its end, so that appending adds one term. */
  function Sum(xs: seq<real>): real {
    if |xs| == 0 then 0.0 else Sum(xs[..|xs| - 1]) + xs[|xs| - 1]
  }

  lemma SumAppend(xs: seq<real>, x: real)
    ensures Sum(xs + [x]) == Sum(xs) + x
  {
    assert (xs + [x])[..|xs|] == xs;
  }

  lemma {:induction false} SumConcat(xs: seq<real>, ys: seq<real>)
    ensures Sum(xs + ys) == Sum(xs) + Sum(ys)
  {
    if |ys| == 0 {
      assert xs + ys == xs;
    } else {
      var ys' := ys[..|ys| - 1];
      SumConcat(xs, ys');
      assert xs + ys == (xs + ys') + [ys[|ys| - 1]];
      SumAppend(xs + ys', ys[|ys| - 1]);
    }
  }

  /** Sum of f over the values stored in a map, whatever the order of its keys. */
  ghost function Total<K, V>(m: map<K, V>, f: V -> real): real
    decreases |m|
  {
    if m == map[] then 0.0 else
      var k :| k in m;
      f(m[k]) + Total(m - {k}, f)
  }

  lemma {:induction false} TotalSplit<K, V>(m: map<K, V>, f: V -> real, k: K)
    requires k in m
    ensures Total(m, f) == f(m[k]) + Total(m - {k}, f)
    decreases |m|
  {
    var c :| c in m && Total(m, f) == f(m[c]) + Total(m - {c}, f);
    if c != k {
      TotalSplit(m - {c}, f, k);
      TotalSplit(m - {k}, f, c);
      assert m - {c} - {k} == m - {k} - {c};
    }
  }

  /** Storing a value adds its weight and takes away the weight it replaces. */
  lemma TotalStore<K, V>(m: map<K, V>, f: V -> real, k: K, v: V)
    ensures Total(m[k := v], f) == Total(m - {k}, f) + f(v)
    ensures Total(m[k := v], f) == Total(m, f) + f(v) - (if k in m then f(m[k]) else 0.0)
  {
    TotalSplit(m[k := v], f, k);
    assert m[k := v] - {k} == m - {k};
    if k in m {
      TotalSplit(m, f, k);
    } else {
      assert m - {k} == m;
    }
  }

  lemma TotalDrop<K, V>(m: map<K, V>, f: V -> real, k: K)
    requires k in m
    ensures Total(m - {k}, f) == Total(m, f) - f(m[k])
  {
    TotalSplit(m, f, k);
  }

  /** Weights that are never negative have a total that is never negative. */
  lemma {:induction false} TotalNonNegative<K, V>(m: map<K, V>, f: V -> real)
    requires forall k :: k in m ==> f(m[k]) >= 0.0
    ensures Total(m, f) >= 0.0
    decreases |m|
  {
    if m != map[] {
      var k :| k in m && Total(m, f) == f(m[k]) + Total(m - {k}, f);
      TotalNonNegative(m - {k}, f);
    }
  }
}
