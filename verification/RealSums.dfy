/** Sums of real sequences, and the inequalities between sums and sums of squares. */
module RealSums {

  function Sum(s: seq<real>): real {
    if s == [] then 0.0 else s[0] + Sum(s[1..])
  }

  function Times(d: real, x: real): real { d * x }

  function SumSq(s: seq<real>): real {
    if s == [] then 0.0 else Times(s[0], s[0]) + SumSq(s[1..])
  }

  function Scaled(s: seq<real>, d: real): (t: seq<real>)
    ensures |t| == |s| && forall i :: 0 <= i < |s| ==> t[i] == Times(d, s[i])
  {
    seq(|s|, i requires 0 <= i < |s| => Times(d, s[i]))
  }

  lemma {:induction false} SumAppend(a: seq<real>, b: seq<real>)
    ensures Sum(a + b) == Sum(a) + Sum(b)
    decreases |a|
  {
    if a == [] {
      assert a + b == b;
    } else {
      assert (a + b)[1..] == a[1..] + b;
      SumAppend(a[1..], b);
    }
  }

  lemma {:induction false} SumUpdate(s: seq<real>, i: nat, x: real)
    requires i < |s|
    ensures Sum(s[i := x]) == Sum(s) - s[i] + x
    decreases |s|
  {
    if i > 0 {
      assert s[i := x][1..] == s[1..][i - 1 := x];
      SumUpdate(s[1..], i - 1, x);
    } else {
      assert s[i := x][1..] == s[1..];
    }
  }

  lemma {:induction false} SumScaled(s: seq<real>, d: real)
    ensures Sum(Scaled(s, d)) == d * Sum(s)
    decreases |s|
  {
    if s != [] {
      assert Scaled(s, d)[1..] == Scaled(s[1..], d);
      SumScaled(s[1..], d);
      assert d * (s[0] + Sum(s[1..])) == d * s[0] + d * Sum(s[1..]);
    }
  }

  lemma {:induction false} SumOfZeros(s: seq<real>)
    requires forall i :: 0 <= i < |s| ==> s[i] == 0.0
    ensures Sum(s) == 0.0
    decreases |s|
  {
    if s != [] {
      SumOfZeros(s[1..]);
    }
  }

  lemma {:induction false} SumSqUpdate(s: seq<real>, i: nat, x: real)
    requires i < |s|
    ensures SumSq(s[i := x]) == SumSq(s) - Times(s[i], s[i]) + Times(x, x)
    decreases |s|
  {
    if i > 0 {
      assert s[i := x][1..] == s[1..][i - 1 := x];
      SumSqUpdate(s[1..], i - 1, x);
    } else {
      assert s[i := x][1..] == s[1..];
    }
  }

  lemma {:induction false} SumSqAppend(a: seq<real>, b: seq<real>)
    ensures SumSq(a + b) == SumSq(a) + SumSq(b)
    decreases |a|
  {
    if a == [] {
      assert a + b == b;
    } else {
      assert (a + b)[1..] == a[1..] + b;
      SumSqAppend(a[1..], b);
    }
  }

  lemma {:induction false} SquareNonNegative(x: real)
    ensures x * x >= 0.0
  {
  }

  /** Cauchy's inequality against the constant sequence: the squared sum is at most n times the sum of squares. */
  lemma {:induction false} SquaredSumBound(s: seq<real>)
    ensures Sum(s) * Sum(s) <= |s| as real * SumSq(s)
    ensures SumSq(s) >= 0.0
    decreases |s|
  {
    if s != [] {
      SquaredSumBound(s[1..]);
      CauchyStep(s[0], Sum(s[1..]), SumSq(s[1..]), (|s| - 1) as real);
    }
  }

  lemma {:induction false} CauchyStep(x: real, r: real, p: real, m: real)
    requires p >= 0.0 && r * r <= m * p
    requires m >= 1.0 || (m == 0.0 && r == 0.0 && p == 0.0)
    ensures (x + r) * (x + r) <= (m + 1.0) * (x * x + p)
    ensures x * x + p >= 0.0
  {
    SquareNonNegative(x);
    assert (x + r) * (x + r) == x * x + 2.0 * x * r + r * r;
    assert (m + 1.0) * (x * x + p) == m * (x * x) + m * p + x * x + p;
    if m >= 1.0 {
      CrossTerm(x, r, p, m);
    }
  }

  lemma {:induction false} CrossTerm(x: real, r: real, p: real, m: real)
    requires m >= 1.0 && r * r <= m * p
    ensures 2.0 * x * r <= m * (x * x) + p
  {
    var y := m * x - r;
    SquareNonNegative(y);
    assert y * y == m * m * (x * x) - 2.0 * m * (x * r) + r * r;
    assert m * (2.0 * x * r) <= m * (m * (x * x) + p) by {
      assert m * (2.0 * x * r) == 2.0 * m * (x * r);
      assert m * (m * (x * x) + p) == m * m * (x * x) + m * p;
    }
    CancelFactor(m, 2.0 * x * r, m * (x * x) + p);
  }

  lemma {:induction false} CancelFactor(m: real, a: real, b: real)
    requires m > 0.0 && m * a <= m * b
    ensures a <= b
  {
    assert a == (m * a) / m && b == (m * b) / m;
  }

  function Mean(s: seq<real>): real
    requires s != []
  {
    Sum(s) / |s| as real
  }

  /** Population variance, computed as the source does: mean of squares minus square of the mean. */
  function Variance(s: seq<real>): real
    requires s != []
  {
    SumSq(s) / |s| as real - Mean(s) * Mean(s)
  }

  lemma {:induction false} VarianceScaled(s: seq<real>, n: real)
    requires s != [] && n == |s| as real
    ensures n * n * Variance(s) == n * SumSq(s) - Sum(s) * Sum(s)
  {
    ScaleUp(n, Sum(s), SumSq(s), Variance(s));
  }

  lemma {:induction false} ScaleUp(n: real, total: real, q: real, v: real)
    requires n > 0.0 && v == q / n - (total / n) * (total / n)
    ensures n * n * v == n * q - total * total
  {
    var mean, meanSq := total / n, q / n;
    assert n * mean == total && n * meanSq == q;
    assert n * n * meanSq == n * (n * meanSq);
    assert n * n * (mean * mean) == (n * mean) * (n * mean);
    assert n * n * (meanSq - mean * mean) == n * n * meanSq - n * n * (mean * mean);
  }

  lemma {:induction false} VarianceNonNegative(s: seq<real>)
    requires s != []
    ensures Variance(s) >= 0.0
  {
    var n := |s| as real;
    VarianceScaled(s, n);
    SquaredSumBound(s);
    CancelFactor(n * n, 0.0, Variance(s));
  }

  /** Samuelson's inequality: no sample is further than sqrt(n - 1) standard deviations from the mean. */
  lemma {:induction false} Samuelson(s: seq<real>, k: nat)
    requires k < |s|
    ensures FarthestIs(s[k], Mean(s), |s| as real - 1.0, Variance(s))
  {
    var others := s[..k] + s[k + 1..];
    SumWithout(s, k);
    SumSqWithout(s, k);
    var n := |s| as real;
    RestBound(others, n - 1.0);
    MeanAndVariance(s, n);
    SamuelsonFor(n, s[k], Sum(others), SumSq(others), Sum(s), SumSq(s), Mean(s), Variance(s));
  }

  /* The squared distance from the mean is at most `m` variances. */
  ghost predicate FarthestIs(x: real, mean: real, m: real, v: real) {
    (x - mean) * (x - mean) <= m * v
  }

  ghost predicate SquareWithin(r: real, m: real, p: real) {
    r * r <= m * p
  }

  ghost predicate Moments(n: real, total: real, q: real, mean: real, v: real) {
    n > 0.0 && mean == total / n && v == q / n - mean * mean
  }

  lemma {:induction false} RestBound(s: seq<real>, m: real)
    requires m == |s| as real
    ensures SquareWithin(Sum(s), m, SumSq(s))
  {
    SquaredSumBound(s);
  }

  lemma {:induction false} MeanAndVariance(s: seq<real>, n: real)
    requires s != [] && n == |s| as real
    ensures Moments(n, Sum(s), SumSq(s), Mean(s), Variance(s))
  {
  }

  lemma {:induction false} SamuelsonFor(n: real, x: real, r: real, p: real, total: real, q: real, mean: real, v: real)
    requires n >= 1.0 && SquareWithin(r, n - 1.0, p) && total == x + r && q == Times(x, x) + p
    requires Moments(n, total, q, mean, v)
    ensures FarthestIs(x, mean, n - 1.0, v)
  {
    ScaleUp(n, total, q, v);
    SamuelsonFromParts(n, x, r, p, total, q, mean, v);
  }

  lemma {:induction false} SamuelsonFromParts(n: real, x: real, r: real, p: real, total: real, q: real, mean: real,
                                              v: real)
    requires n >= 1.0 && r * r <= (n - 1.0) * p && total == x + r && q == x * x + p && mean == total / n
    requires n * n * v == n * q - total * total
    ensures (x - mean) * (x - mean) <= (n - 1.0) * v
  {
    SamuelsonAlgebra(n, x, r, p, v);
    SamuelsonUnscaled(n, x, total, mean, v);
  }

  lemma {:induction false} SamuelsonUnscaled(n: real, x: real, total: real, mean: real, v: real)
    requires n >= 1.0 && mean == total / n
    requires (n * x - total) * (n * x - total) <= n * n * ((n - 1.0) * v)
    ensures (x - mean) * (x - mean) <= (n - 1.0) * v
  {
    DeviationScaled(n, x, total, mean);
    assert n * n > 0.0;
    CancelFactor(n * n, (x - mean) * (x - mean), (n - 1.0) * v);
  }

  lemma {:induction false} DeviationScaled(n: real, x: real, total: real, mean: real)
    requires n > 0.0 && mean == total / n
    ensures n * n * ((x - mean) * (x - mean)) == (n * x - total) * (n * x - total)
  {
    var dev := x - mean;
    assert n * mean == total;
    assert n * dev == n * x - total;
    assert n * n * (dev * dev) == (n * dev) * (n * dev);
  }

  lemma {:induction false} SamuelsonAlgebra(n: real, x: real, r: real, p: real, v: real)
    requires r * r <= (n - 1.0) * p && n >= 1.0
    requires n * n * v == n * (x * x + p) - (x + r) * (x + r)
    ensures (n * x - (x + r)) * (n * x - (x + r)) <= n * n * ((n - 1.0) * v)
  {
    var m := n - 1.0;
    assert (n * x - (x + r)) == m * x - r;
    assert (m * x - r) * (m * x - r) == m * m * (x * x) - 2.0 * m * (x * r) + r * r;
    assert n * n * (m * v) == m * (n * n * v);
    assert n * n * v == m * (x * x) + n * p - 2.0 * (x * r) - r * r;
    assert m * (m * (x * x) + n * p - 2.0 * (x * r) - r * r)
        == m * m * (x * x) + m * n * p - 2.0 * m * (x * r) - m * (r * r);
    assert m * n * p == n * (m * p);
    assert n * (r * r) <= n * (m * p);
    assert m * (r * r) + r * r == n * (r * r);
  }

  lemma {:induction false} SumWithout(s: seq<real>, k: nat)
    requires k < |s|
    ensures Sum(s) == s[k] + Sum(s[..k] + s[k + 1..])
  {
    assert s == s[..k] + ([s[k]] + s[k + 1..]);
    SumAppend(s[..k], [s[k]] + s[k + 1..]);
    SumAppend([s[k]], s[k + 1..]);
    assert Sum([s[k]]) == s[k];
    SumAppend(s[..k], s[k + 1..]);
  }

  lemma {:induction false} SumSqWithout(s: seq<real>, k: nat)
    requires k < |s|
    ensures SumSq(s) == Times(s[k], s[k]) + SumSq(s[..k] + s[k + 1..])
  {
    assert s == s[..k] + ([s[k]] + s[k + 1..]);
    SumSqAppend(s[..k], [s[k]] + s[k + 1..]);
    SumSqAppend([s[k]], s[k + 1..]);
    SumSqAppend(s[..k], s[k + 1..]);
    assert [s[k]][1..] == [] && SumSq([s[k]]) == Times(s[k], s[k]);
  }
}
