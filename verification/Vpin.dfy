/**
 The O(1) VPIN engine: a ring of absolute imbalances with a running sum, and an independent, longer
 ring of past VPIN values with running sums for the z-score. Floats are reals; the clock and the
 exponential decay factor are parameters.
 */
module Vpin {
  import opened Options
  import opened Reals
  import opened RealSums
  import opened Modulo

  datatype Bar = Bar(buyUsd: real, sellUsd: real, close: real)

  datatype Direction = Long | Short | Neutral

  datatype Signal = Signal(vpin: real, anomaly: bool, absorption: bool, direction: Direction)

  /* What three running sums lack of the sums they stand for. */
  datatype Lag = LagOf(imbalance: real, vpin: real, vpinSq: real)

  const NO_LAG := LagOf(0.0, 0.0, 0.0)

  const VARIANCE_FLOOR: real := 0.000_000_000_001

  function Clamp(x: real): real { if x < 0.0 then 0.0 else if x > 1.0 then 1.0 else x }

  function Floored(variance: real): (r: real)
    ensures r >= variance && r >= 0.000_000_000_001 && (r == variance || r == 0.000_000_000_001)
  {
    if variance < VARIANCE_FLOOR then VARIANCE_FLOOR else variance
  }

  /** `(value - mean) / sqrt(variance) > threshold` without the square root. */
  predicate Exceeds(value: real, mean: real, variance: real, threshold: real) {
    var d := value - mean;
    if threshold >= 0.0 then d > 0.0 && d * d > threshold * threshold * variance
    else d >= 0.0 || d * d < threshold * threshold * variance
  }

  /** For any square root of the variance, the squared comparison is the z-score comparison. */
  lemma {:induction false} ExceedsIsZScore(value: real, mean: real, std: real, threshold: real)
    requires std > 0.0
    ensures Exceeds(value, mean, std * std, threshold) <==> (value - mean) / std > threshold
  {
    var d, e := value - mean, threshold * std;
    var z := d / std;
    assert d == z * std;
    assert d - e == (z - threshold) * std;
    SignOfProduct(z - threshold, std);
    SignOfProduct(threshold, std);
    SquareOfProduct(threshold, std);
    SquareOrder(d, e);
  }

  lemma {:induction false} SquareOfProduct(z: real, s: real)
    ensures (z * s) * (z * s) == z * z * (s * s)
  {
  }

  lemma {:induction false} SquareOrder(d: real, e: real)
    ensures e >= 0.0 ==> (d > 0.0 && d * d > e * e <==> d > e)
    ensures e < 0.0 ==> (d >= 0.0 || d * d < e * e <==> d > e)
  {
    assert d * d - e * e == (d - e) * (d + e);
    if e >= 0.0 && d > 0.0 {
      SignOfProduct(d - e, d + e);
    } else if e < 0.0 && d < 0.0 {
      assert d * d - e * e == (e - d) * (-d - e);
      SignOfProduct(e - d, -d - e);
    }
  }

  lemma {:induction false} SignOfProduct(a: real, b: real)
    requires b > 0.0
    ensures a * b > 0.0 <==> a > 0.0
    ensures a * b < 0.0 <==> a < 0.0
  {
  }

  /** The last `w` entries of a history, oldest first. */
  function Window<T>(hist: seq<T>, w: nat): seq<T> {
    if |hist| > w then hist[|hist| - w..] else hist
  }

  /* Ring `a` holds the newest entries of `hist`, entry j in slot j mod |a|. */
  ghost predicate RingHolds(a: seq<real>, hist: seq<real>) {
    && |a| > 0
    && forall j :: 0 <= j < |hist| && |hist| - |a| <= j ==> a[Slot(j, |a|)] == hist[j]
  }

  lemma {:induction false} RingPush(a: seq<real>, hist: seq<real>, x: real)
    requires RingHolds(a, hist)
    ensures RingHolds(a[Slot(|hist|, |a|) := x], hist + [x])
  {
    var b, h := a[Slot(|hist|, |a|) := x], hist + [x];
    forall j | 0 <= j < |h| && |h| - |a| <= j
      ensures b[Slot(j, |a|)] == h[j]
    {
      if j < |hist| {
        SlotsApart(j, |hist|, |a|);
      }
    }
  }

  lemma {:induction false} WindowPush(hist: seq<real>, w: nat, x: real)
    requires w > 0
    ensures Sum(Window(hist + [x], w)) ==
            Sum(Window(hist, w)) + x - (if |hist| >= w then hist[|hist| - w] else 0.0)
  {
    var before := Window(hist, w);
    SumAppend(before, [x]);
    assert [x][1..] == [] && Sum([x]) == x;
    if |hist| >= w {
      assert before == [hist[|hist| - w]] + before[1..];
      assert Window(hist + [x], w) == before[1..] + [x];
      SumAppend(before[1..], [x]);
    } else {
      assert Window(hist + [x], w) == before + [x];
    }
  }

  lemma {:induction false} WindowScaled(hist: seq<real>, w: nat, d: real)
    ensures Window(Scaled(hist, d), w) == Scaled(Window(hist, w), d)
  {
  }

  /* Unused slots are zero, so the sums over the whole ring are the sums over its live part. */
  lemma {:induction false} LivePartSums(a: seq<real>, n: nat)
    requires n <= |a| && forall i :: n <= i < |a| ==> a[i] == 0.0
    ensures Sum(a) == Sum(a[..n]) && SumSq(a) == SumSq(a[..n])
  {
    assert a == a[..n] + a[n..];
    SumAppend(a[..n], a[n..]);
    SumSqAppend(a[..n], a[n..]);
    SumOfZeros(a[n..]);
    SumSqOfZeros(a[n..]);
  }

  lemma {:induction false} SumSqOfZeros(s: seq<real>)
    requires forall i :: 0 <= i < |s| ==> s[i] == 0.0
    ensures SumSq(s) == 0.0
    decreases |s|
  {
    if s != [] {
      SumSqOfZeros(s[1..]);
    }
  }

  /* Mean and variance of a live history as running sums ahead of it by `skew` and `skewSq` give them. */
  function SkewedMean(s: seq<real>, skew: real): real
    requires s != []
  {
    (Sum(s) + skew) / |s| as real
  }

  function SkewedVariance(s: seq<real>, skew: real, skewSq: real): real
    requires s != []
  {
    (SumSq(s) + skewSq) / |s| as real - SkewedMean(s, skew) * SkewedMean(s, skew)
  }

  lemma {:induction false} QuotientShifts(a: real, x: real, n: real)
    requires n > 0.0
    ensures (a + x) / n == a / n + x / n
    ensures (a + x) / n == a / n <==> x == 0.0
  {
    assert x / n == 0.0 <==> x == 0.0;
  }

  /** The mean is right exactly without a skew, and then so is the variance exactly without a skew of the squares. */
  lemma {:induction false} MomentsAreRightExactly(s: seq<real>, skew: real, skewSq: real)
    requires s != []
    ensures SkewedMean(s, skew) == Mean(s) + skew / |s| as real
    ensures SkewedMean(s, skew) == Mean(s) <==> skew == 0.0
    ensures skew == 0.0 ==> (SkewedVariance(s, skew, skewSq) == Variance(s) <==> skewSq == 0.0)
  {
    QuotientShifts(Sum(s), skew, |s| as real);
    QuotientShifts(SumSq(s), skewSq, |s| as real);
  }

  lemma {:induction false} MomentsFromSums(s: seq<real>, sum: real, sq: real, skew: real, skewSq: real, mean: real,
                                           variance: real)
    requires s != [] && sum == Sum(s) + skew && sq == SumSq(s) + skewSq
    requires mean == sum / |s| as real && variance == sq / |s| as real - mean * mean
    ensures mean == SkewedMean(s, skew) && variance == SkewedVariance(s, skew, skewSq)
  {
  }

  /* The sums over a ring are those of its live part and its tail. */
  lemma {:induction false} SumsSplit(a: seq<real>, n: nat)
    requires n <= |a|
    ensures Sum(a) == Sum(a[..n]) + Sum(a[n..]) && SumSq(a) == SumSq(a[..n]) + SumSq(a[n..])
  {
    assert a == a[..n] + a[n..];
    SumAppend(a[..n], a[n..]);
    SumSqAppend(a[..n], a[n..]);
  }

  predicate EnoughHistory(n: nat, threshold: real) {
    n as real - 1.0 > threshold * threshold
  }

  /* The VPIN value for the total imbalance of a full window. */
  function Share(total: real, volumeThreshold: real, windowSize: nat): real
    requires volumeThreshold > 0.0 && windowSize > 0
  {
    Clamp(total / (volumeThreshold * windowSize as real))
  }

  /** Between nothing and a window full of one-sided bars the share is the quotient; beyond, it is cut off. */
  lemma {:induction false} ShareIsQuotient(total: real, volumeThreshold: real, windowSize: nat)
    requires volumeThreshold > 0.0 && windowSize > 0
    ensures var whole, share := volumeThreshold * windowSize as real, Share(total, volumeThreshold, windowSize);
            && 0.0 <= share <= 1.0
            && (0.0 <= total <= whole ==> share * whole == total)
            && (total <= 0.0 ==> share == 0.0) && (total >= whole ==> share == 1.0)
  {
    var whole := volumeThreshold * windowSize as real;
    assert whole > 0.0;
    QuotientIs(total, whole);
  }

  lemma {:induction false} QuotientIs(x: real, y: real)
    requires y > 0.0
    ensures (x / y) * y == x && (x <= 0.0 <==> x / y <= 0.0) && (x >= y <==> x / y >= 1.0)
  {
    assert (x / y) * y == x;
    FactorIs(x / y, x, y);
  }

  lemma {:induction false} FactorIs(q: real, x: real, y: real)
    requires y > 0.0 && q * y == x
    ensures (x <= 0.0 <==> q <= 0.0) && (x >= y <==> q >= 1.0)
  {
    LargerFactor(0.0, q, y);
    LargerFactor(q, 1.0, y);
  }

  lemma {:induction false} LargerFactor(a: real, b: real, y: real)
    requires y > 0.0
    ensures a * y < b * y <==> a < b
  {
    var d := b - a;
    assert d * y == b * y - a * y;
    SignOfProduct(d, y);
  }

  /** A window of one-sided bars of exactly the threshold has the share 1, a balanced one the share 0. */
  lemma {:induction false} OneSidedWindowIsWhole(hist: seq<real>, volumeThreshold: real, w: nat, x: real)
    requires volumeThreshold > 0.0 && w > 0 && |hist| >= w
    requires forall i :: |hist| - w <= i < |hist| ==> hist[i] == x
    ensures x == volumeThreshold ==> Share(Sum(Window(hist, w)), volumeThreshold, w) == 1.0
    ensures x == 0.0 ==> Share(Sum(Window(hist, w)), volumeThreshold, w) == 0.0
  {
    var s := Window(hist, w);
    assert |s| == w && forall i :: 0 <= i < |s| ==> s[i] == hist[|hist| - w + i];
    ConstantSum(s, x);
    ShareIsQuotient(Sum(s), volumeThreshold, w);
  }

  lemma {:induction false} ConstantSum(s: seq<real>, x: real)
    requires forall i :: 0 <= i < |s| ==> s[i] == x
    ensures Sum(s) == x * |s| as real
    decreases |s|
  {
    if s != [] {
      ConstantSum(s[1..], x);
      assert x * |s| as real == x + x * (|s| - 1) as real;
    }
  }

  /** A steady market raises no anomaly: a value equal to all of its history is at its mean. */
  lemma {:induction false} SteadyHistoryIsNoAnomaly(s: seq<real>, x: real, variance: real, threshold: real)
    requires s != [] && threshold >= 0.0 && forall i :: 0 <= i < |s| ==> s[i] == x
    ensures Mean(s) == x && !Exceeds(x, Mean(s), variance, threshold)
  {
    ConstantSum(s, x);
    DividedBack(x, |s| as real);
  }

  lemma {:induction false} DividedBack(x: real, n: real)
    requires n > 0.0
    ensures (x * n) / n == x
  {
    var q := (x * n) / n;
    assert q * n == x * n;
    LargerFactor(q, x, n);
    LargerFactor(x, q, n);
  }

  /**
   Warm-up soundness: an anomaly at a positive threshold needs a history of more than
   1 + threshold^2 values, whatever the values are.
   */
  lemma {:induction false} AnomalyNeedsHistory(s: seq<real>, k: nat, threshold: real)
    requires k < |s| && threshold > 0.0
    requires Exceeds(s[k], Mean(s), Floored(Variance(s)), threshold)
    ensures EnoughHistory(|s|, threshold)
  {
    Samuelson(s, k);
    VarianceNonNegative(s);
    FarExceeds(s[k] - Mean(s), |s| as real - 1.0, threshold * threshold, Variance(s), Floored(Variance(s)));
  }

  lemma {:induction false} FarExceeds(d: real, m: real, t2: real, v: real, floored: real)
    requires d * d <= m * v && d * d > t2 * floored && 0.0 <= v <= floored && t2 >= 0.0
    ensures m > t2
  {
    assert t2 * floored >= t2 * v;
    assert (m - t2) * v == m * v - t2 * v > 0.0;
    PositiveFactor(m - t2, v);
  }

  lemma {:induction false} PositiveFactor(a: real, v: real)
    requires a * v > 0.0 && v >= 0.0
    ensures a > 0.0
  {
  }

  /* The imbalance and price rings against the histories they are windows of. */
  ghost predicate WindowState(imbalances: seq<real>, prices: seq<real>, flow: seq<real>, closes: seq<real>,
                              index: nat, filled: bool)
  {
    && |imbalances| == |prices| && |flow| == |closes|
    && RingHolds(imbalances, flow) && RingHolds(prices, closes)
    && index == Slot(|closes|, |prices|)
    && (filled <==> |closes| >= |prices|)
    && (|flow| >= |imbalances| ==> Sum(imbalances) == Sum(Window(flow, |imbalances|)))
  }

  /* Slots from `n` on were never used. */
  ghost predicate UnusedFrom(a: seq<real>, n: nat) {
    forall i :: n <= i < |a| ==> a[i] == 0.0
  }

  lemma {:induction false} WindowAfterPush(a: seq<real>, p: seq<real>, flow: seq<real>, closes: seq<real>,
                                           index: nat, filled: bool, x: real, price: real)
    requires WindowState(a, p, flow, closes, index, filled)
    ensures index < |a| && (|flow| < |a| ==> index == |flow|)
    ensures WindowState(a[index := x], p[index := price], flow + [x], closes + [price],
                        if index + 1 >= |a| then 0 else index + 1, filled || index + 1 >= |a|)
  {
    RingPush(a, flow, x);
    RingPush(p, closes, price);
    NextSlot(|closes|, |a|);
    if |flow| >= |a| {
      WindowPush(flow, |a|, x);
      SumUpdate(a, index, x);
      SlotMinusCapacity(|flow|, |a|);
    } else {
      SmallSlot(|flow|, |a|);
      if |flow| + 1 == |a| {
        var b, h := a[index := x], flow + [x];
        FullRingIsHistory(b, h);
        assert b[..|h|] == b && Window(h, |b|) == h;
      }
    }
  }

  lemma {:induction false} FullRingIsHistory(a: seq<real>, hist: seq<real>)
    requires RingHolds(a, hist) && |hist| <= |a|
    ensures a[..|hist|] == hist
  {
    forall j | 0 <= j < |hist|
      ensures a[j] == hist[j]
    {
      SmallSlot(j, |a|);
    }
  }

  /* During warm-up too the ring's sum is the window's, while the unused slots are zero. */
  lemma {:induction false} WarmUpSum(a: seq<real>, flow: seq<real>)
    requires RingHolds(a, flow) && UnusedFrom(a, |flow|)
    requires |flow| >= |a| ==> Sum(a) == Sum(Window(flow, |a|))
    ensures Sum(a) == Sum(Window(flow, |a|))
  {
    if |flow| < |a| {
      FullRingIsHistory(a, flow);
      LivePartSums(a, |flow|);
    }
  }

  lemma {:induction false} UnusedAfterPush(a: seq<real>, n: nat, i: nat, x: real)
    requires UnusedFrom(a, n) && i < |a| && (n < |a| ==> i == n)
    ensures UnusedFrom(a[i := x], n + 1)
  {
  }

  lemma {:induction false} WindowAfterDecay(a: seq<real>, p: seq<real>, flow: seq<real>, closes: seq<real>,
                                            index: nat, filled: bool, d: real)
    requires WindowState(a, p, flow, closes, index, filled)
    ensures WindowState(Scaled(a, d), p, Scaled(flow, d), closes, index, filled)
  {
    RingScaled(a, flow, d);
    if |flow| >= |a| {
      SumsStayEqual(a, flow, d);
    }
  }

  lemma {:induction false} SumsStayEqual(a: seq<real>, flow: seq<real>, d: real)
    requires Sum(a) == Sum(Window(flow, |a|))
    ensures Sum(Scaled(a, d)) == Sum(Window(Scaled(flow, d), |a|))
  {
    SumScaled(a, d);
    WindowScaled(flow, |a|, d);
    SumScaled(Window(flow, |a|), d);
  }

  lemma {:induction false} UnusedAfterDecay(a: seq<real>, n: nat, d: real)
    requires UnusedFrom(a, n)
    ensures UnusedFrom(Scaled(a, d), n)
  {
    assert Times(d, 0.0) == 0.0;
  }

  /* ---- sums that vanish ---- */

  ghost predicate NonNegative(a: seq<real>) {
    forall i :: 0 <= i < |a| ==> a[i] >= 0.0
  }

  /** A sum of non-negative values is not negative, and is zero only when all of them are. */
  lemma {:induction false} ZeroSum(a: seq<real>)
    requires NonNegative(a)
    ensures Sum(a) >= 0.0 && (Sum(a) == 0.0 ==> UnusedFrom(a, 0))
    decreases |a|
  {
    if a != [] {
      assert forall i :: 0 <= i < |a| - 1 ==> a[1..][i] == a[i + 1];
      ZeroSum(a[1..]);
      assert Sum(a) == 0.0 ==> forall i :: 0 < i < |a| ==> a[i] == a[1..][i - 1];
    }
  }

  lemma {:induction false} ZeroSquare(x: real)
    ensures Times(x, x) == 0.0 ==> x == 0.0
  {
    if x != 0.0 {
      assert x * x / x == x;
    }
  }

  lemma {:induction false} ZeroSumSq(a: seq<real>)
    ensures SumSq(a) >= 0.0 && (SumSq(a) == 0.0 ==> UnusedFrom(a, 0))
    decreases |a|
  {
    if a != [] {
      SquareNonNegative(a[0]);
      ZeroSquare(a[0]);
      ZeroSumSq(a[1..]);
      assert SumSq(a) == 0.0 ==> forall i :: 0 < i < |a| ==> a[i] == a[1..][i - 1];
    }
  }

  lemma {:induction false} ScaledNonNegative(a: seq<real>, d: real)
    requires NonNegative(a) && d >= 0.0
    ensures NonNegative(Scaled(a, d))
  {
    forall i | 0 <= i < |a|
      ensures Scaled(a, d)[i] >= 0.0
    {
      assert d * a[i] >= 0.0;
    }
  }

  lemma {:induction false} RingScaled(a: seq<real>, hist: seq<real>, d: real)
    requires RingHolds(a, hist)
    ensures RingHolds(Scaled(a, d), Scaled(hist, d))
  {
  }

  class O1VPINEngine {
    const windowSize: nat
    const zSize: nat
    const volumeThreshold: real
    const zThreshold: real
    const gapSec: real
    const rebuildInterval: nat

    const imbalances: array<real>
    const prices: array<real>
    var index: nat
    var filled: bool
    var imbalanceSum: real

    const vpins: array<real>
    var zIndex: nat
    var zCount: nat
    var vpinSum: real
    var vpinSqSum: real

    var lastUpdate: real
    var barsSinceRebuild: nat

    /* Every absolute imbalance seen, each decayed since it was seen; every close price seen. */
    ghost var flow: seq<real>
    ghost var closes: seq<real>

    ghost predicate Arrays()
      reads this
    {
      && windowSize >= 2 && zSize >= windowSize
      && imbalances.Length == windowSize && prices.Length == windowSize && vpins.Length == zSize
      && imbalances != prices && imbalances != vpins && prices != vpins
    }

    /* Holds in every run, resets included. */
    ghost predicate Sound()
      reads this, imbalances, prices
    {
      && Arrays() && index < windowSize && zIndex < zSize && zCount <= zSize
      && (zCount < zSize ==> zIndex == zCount)
      && WindowState(imbalances[..], prices[..], flow, closes, index, filled)
    }

    /* How far each array's sum is ahead of its running sum. */
    ghost function Lag(): Lag
      reads this, imbalances, vpins
    {
      LagOf(Sum(imbalances[..]) - imbalanceSum, Sum(vpins[..]) - vpinSum, SumSq(vpins[..]) - vpinSqSum)
    }

    /* The running sums equal the sums they stand for. */
    ghost predicate SumsMatch()
      reads this, imbalances, vpins
    {
      imbalanceSum == Sum(imbalances[..]) && vpinSum == Sum(vpins[..]) && vpinSqSum == SumSq(vpins[..])
    }

    /* Holds in every run without a reset. */
    ghost predicate Valid()
      reads this, imbalances, prices, vpins
    {
      Sound() && SumsMatch() && UnusedFrom(imbalances[..], |flow|) && UnusedFrom(vpins[..], zCount)
    }

    /**
     The value is the clamped share of the imbalances of the last window, less the lag of their running
     sum; absorption compares the close with the oldest close of the window.
     */
    ghost predicate SignalFollows(signal: Signal, bar: Bar, lag: real)
      reads this
      requires volumeThreshold > 0.0 && windowSize > 0
    {
      && |closes| >= windowSize
      && signal == SignalFor(Share(Sum(Window(flow, windowSize)) - lag, volumeThreshold, windowSize),
                             signal.anomaly, bar, closes[|closes| - windowSize])
    }

    /* How far the running sums of the z-score ring are ahead of its live part, when they lag as given. */
    ghost function Skew(lag: Lag): real
      reads this, vpins
      requires zCount <= vpins.Length
    {
      Sum(vpins[zCount..]) - lag.vpin
    }

    ghost function SkewSq(lag: Lag): real
      reads this, vpins
      requires zCount <= vpins.Length
    {
      SumSq(vpins[zCount..]) - lag.vpinSq
    }

    /** In any run: the z-score test against the live history, which the value is part of, as skewed by the lag. */
    ghost predicate AnomalyFollows(vpin: real, anomaly: bool, lag: Lag)
      reads this, vpins
    {
      && 0 < zCount <= vpins.Length && vpin in vpins[..zCount]
      && (anomaly <==> Exceeds(vpin, SkewedMean(vpins[..zCount], Skew(lag)),
                               Floored(SkewedVariance(vpins[..zCount], Skew(lag), SkewSq(lag))), zThreshold))
    }

    /** Where the tail left over by a reset sums to the lag, squares included, the anomaly is right. */
    lemma {:induction false} WithoutSkewAnomalyIsRight(vpin: real, anomaly: bool, lag: Lag)
      requires AnomalyFollows(vpin, anomaly, lag) && Skew(lag) == 0.0 && SkewSq(lag) == 0.0
      ensures AnomalyIsRight(vpin, anomaly)
    {
      var live := vpins[..zCount];
      MomentsAreRightExactly(live, 0.0, 0.0);
      if anomaly && zThreshold > 0.0 {
        var k :| 0 <= k < |live| && live[k] == vpin;
        AnomalyNeedsHistory(live, k, zThreshold);
      }
    }

    lemma {:induction false} ValidHasNoSkew()
      requires Valid()
      ensures Skew(Lag()) == 0.0 && SkewSq(Lag()) == 0.0
    {
      assert UnusedFrom(vpins[..], zCount);
      var tail := vpins[zCount..];
      assert forall i :: 0 <= i < |tail| ==> tail[i] == vpins[..][zCount + i];
      SumOfZeros(tail);
      SumSqOfZeros(tail);
    }

    /**
     The anomaly is the z-score test against the live history, which the value is part of, and at a
     positive threshold comes only with enough of it.
     */
    ghost predicate AnomalyIsRight(vpin: real, anomaly: bool)
      reads this, vpins
    {
      && 0 < zCount <= vpins.Length && vpin in vpins[..zCount]
      && (anomaly <==> Exceeds(vpin, Mean(vpins[..zCount]), Floored(Variance(vpins[..zCount])), zThreshold))
      && (anomaly && zThreshold > 0.0 ==> EnoughHistory(zCount, zThreshold))
    }

    /* The source refuses other sizes. */
    constructor (windowSize: nat, volumeThreshold: real, zThreshold: real, zSize: nat, rebuildInterval: nat,
                 gapSec: real, now: real)
      requires windowSize >= 2 && zSize >= windowSize
      ensures Valid() && flow == [] && closes == [] && NonNegative(imbalances[..]) && lastUpdate == now
      ensures this.windowSize == windowSize && this.volumeThreshold == volumeThreshold && this.gapSec == gapSec
      ensures fresh(imbalances) && fresh(prices) && fresh(vpins)
    {
      this.windowSize, this.zSize := windowSize, zSize;
      this.volumeThreshold, this.zThreshold := volumeThreshold, zThreshold;
      this.rebuildInterval, this.gapSec := rebuildInterval, gapSec;
      imbalances := new real[windowSize](_ => 0.0);
      prices := new real[windowSize](_ => 0.0);
      vpins := new real[zSize](_ => 0.0);
      new;
      Reset(now);
    }

    /**
     `reset_o1` zeroes the counters and sums but reuses the arrays: each sum then lags by what its array
     still holds, and the sums match exactly when every slot of both arrays is zero.
     */
    method Reset(now: real)
      requires Arrays()
      modifies this
      ensures Sound() && zCount == 0 && flow == [] && closes == [] && lastUpdate == now && barsSinceRebuild == 0
      ensures Lag() == LagOf(Sum(imbalances[..]), Sum(vpins[..]), SumSq(vpins[..]))
      ensures Valid() <==> UnusedFrom(imbalances[..], 0) && UnusedFrom(vpins[..], 0)
      ensures NonNegative(imbalances[..]) ==>
                (SumsMatch() <==> UnusedFrom(imbalances[..], 0) && UnusedFrom(vpins[..], 0))
    {
      ZeroFields(now);
      SmallSlot(0, windowSize);
      SumsVanishExactly(imbalances[..], vpins[..]);
    }

    method ZeroFields(now: real)
      modifies this
      ensures index == 0 && !filled && imbalanceSum == 0.0 && zIndex == 0 && zCount == 0
      ensures vpinSum == 0.0 && vpinSqSum == 0.0 && lastUpdate == now && barsSinceRebuild == 0
      ensures flow == [] && closes == []
    {
      index, filled, imbalanceSum := 0, false, 0.0;
      zIndex, zCount, vpinSum, vpinSqSum := 0, 0, 0.0, 0.0;
      lastUpdate, barsSinceRebuild := now, 0;
      flow, closes := [], [];
    }

    /** `_apply_time_decay`: scales both rings and takes the sums afresh. */
    method ApplyTimeDecay(decay: real)
      requires Sound()
      modifies this`imbalanceSum, this`vpinSum, this`vpinSqSum, this`flow, imbalances, vpins
      ensures Sound() && SumsMatch() && Lag() == NO_LAG
      ensures old(Valid()) ==> Valid()
      ensures old(NonNegative(imbalances[..])) && decay >= 0.0 ==> NonNegative(imbalances[..])
      ensures flow == Scaled(old(flow), decay)
      ensures vpins[..] == Scaled(old(vpins[..]), decay)
    {
      ghost var a, z := imbalances[..], vpins[..];
      WindowAfterDecay(a, prices[..], flow, closes, index, filled, decay);
      ScaleRings(decay);
      imbalanceSum := Sum(imbalances[..]);
      vpinSum := Sum(vpins[..]);
      vpinSqSum := SumSq(vpins[..]);
      flow := Scaled(flow, decay);
      if UnusedFrom(a, |flow|) && UnusedFrom(z, zCount) {
        UnusedAfterDecay(a, |flow|, decay);
        UnusedAfterDecay(z, zCount, decay);
      }
      if decay >= 0.0 && NonNegative(a) {
        ScaledNonNegative(a, decay);
      }
    }

    method ScaleRings(decay: real)
      requires Arrays()
      modifies imbalances, vpins
      ensures imbalances[..] == Scaled(old(imbalances[..]), decay) && vpins[..] == Scaled(old(vpins[..]), decay)
      ensures prices[..] == old(prices[..])
    {
      ghost var p := prices[..];
      forall i | 0 <= i < imbalances.Length { imbalances[i] := Times(decay, imbalances[i]); }
      assert imbalances[..] == Scaled(old(imbalances[..]), decay);
      forall i | 0 <= i < vpins.Length { vpins[i] := Times(decay, vpins[i]); }
      assert imbalances[..] == Scaled(old(imbalances[..]), decay) && prices[..] == p;
    }

    method RebuildSums()
      modifies this`imbalanceSum, this`vpinSum, this`vpinSqSum, this`barsSinceRebuild
      ensures SumsMatch() && Lag() == NO_LAG && barsSinceRebuild == 0
      ensures old(SumsMatch()) ==>
                imbalanceSum == old(imbalanceSum) && vpinSum == old(vpinSum) && vpinSqSum == old(vpinSqSum)
    {
      imbalanceSum := Sum(imbalances[..]);
      vpinSum := Sum(vpins[..]);
      vpinSqSum := SumSq(vpins[..]);
      barsSinceRebuild := 0;
    }

    /** The imbalance ring: one bar in, the oldest out. The sum keeps its lag. */
    method PushImbalance(x: real, price: real)
      requires Sound()
      modifies this`index, this`filled, this`imbalanceSum, this`flow, this`closes, imbalances, prices
      ensures Sound() && Lag() == old(Lag())
      ensures old(Valid()) ==> Valid()
      ensures old(NonNegative(imbalances[..])) && x >= 0.0 ==> NonNegative(imbalances[..])
      ensures flow == old(flow) + [x] && closes == old(closes) + [price]
    {
      ghost var a, p := imbalances[..], prices[..];
      WindowAfterPush(a, p, flow, closes, index, filled, x, price);
      SumUpdate(a, index, x);
      if UnusedFrom(a, |flow|) {
        UnusedAfterPush(a, |flow|, index, x);
      }
      StoreImbalance(x, price);
      flow, closes := flow + [x], closes + [price];
    }

    method StoreImbalance(x: real, price: real)
      requires Arrays() && index < windowSize
      modifies this`index, this`filled, this`imbalanceSum, imbalances, prices
      ensures imbalances[..] == old(imbalances[..])[old(index) := x]
      ensures prices[..] == old(prices[..])[old(index) := price]
      ensures vpins[..] == old(vpins[..])
      ensures imbalanceSum == old(imbalanceSum) + (x - old(imbalances[..])[old(index)])
      ensures index == (if old(index) + 1 >= windowSize then 0 else old(index) + 1)
      ensures filled == (old(filled) || old(index) + 1 >= windowSize)
    {
      imbalanceSum := imbalanceSum + (x - imbalances[index]);
      imbalances[index] := x;
      prices[index] := price;
      index := index + 1;
      if index >= windowSize {
        index := 0;
        filled := true;
      }
    }

    /** The z-score ring: one VPIN value in, the oldest out. The sums keep their lag. */
    method PushVpin(v: real) returns (slot: nat)
      requires Sound()
      modifies this`zIndex, this`zCount, this`vpinSum, this`vpinSqSum, vpins
      ensures Sound() && Lag() == old(Lag())
      ensures old(Valid()) ==> Valid()
      ensures zCount == (if old(zCount) < zSize then old(zCount) + 1 else zSize)
      ensures slot == old(zIndex) && slot < zCount && vpins[..] == old(vpins[..])[slot := v]
      ensures imbalances[..] == old(imbalances[..]) && prices[..] == old(prices[..])
    {
      ghost var z := vpins[..];
      slot := zIndex;
      SumUpdate(z, slot, v);
      SumSqUpdate(z, slot, v);
      if UnusedFrom(z, zCount) {
        UnusedAfterPush(z, zCount, slot, v);
      }
      StoreVpin(v);
    }

    method StoreVpin(v: real)
      requires Arrays() && zIndex < zSize && zCount <= zSize
      modifies this`zIndex, this`zCount, this`vpinSum, this`vpinSqSum, vpins
      ensures vpins[..] == old(vpins[..])[old(zIndex) := v]
      ensures imbalances[..] == old(imbalances[..]) && prices[..] == old(prices[..])
      ensures vpinSum == old(vpinSum) + (v - old(vpins[..])[old(zIndex)])
      ensures vpinSqSum
              == old(vpinSqSum) + (Times(v, v) - Times(old(vpins[..])[old(zIndex)], old(vpins[..])[old(zIndex)]))
      ensures zIndex == (if old(zIndex) + 1 >= zSize then 0 else old(zIndex) + 1)
      ensures zCount == (if old(zCount) < zSize then old(zCount) + 1 else zSize)
    {
      vpinSum := vpinSum + (v - vpins[zIndex]);
      vpinSqSum := vpinSqSum + (Times(v, v) - Times(vpins[zIndex], vpins[zIndex]));
      vpins[zIndex] := v;
      zIndex := zIndex + 1;
      if zIndex >= zSize {
        zIndex := 0;
      }
      if zCount < zSize {
        zCount := zCount + 1;
      }
    }

    /**
     Mean and variance from the running sums: those of the live values as skewed by what a reset left
     behind, and right exactly when the rest of the ring sums to the lag.
     */
    method Moments() returns (mean: real, variance: real)
      requires Sound() && zCount > 0
      ensures mean == SkewedMean(vpins[..zCount], Skew(Lag()))
      ensures variance == SkewedVariance(vpins[..zCount], Skew(Lag()), SkewSq(Lag()))
      ensures mean == Mean(vpins[..zCount]) <==> Sum(vpins[zCount..]) == Lag().vpin
      ensures mean == Mean(vpins[..zCount]) ==>
                (variance == Variance(vpins[..zCount]) <==> SumSq(vpins[zCount..]) == Lag().vpinSq)
      ensures Valid() ==> mean == Mean(vpins[..zCount]) && variance == Variance(vpins[..zCount]) && variance >= 0.0
    {
      RunningSumsAreSkewed();
      mean, variance := FromSums();
      MomentsFromSums(vpins[..zCount], vpinSum, vpinSqSum, Skew(Lag()), SkewSq(Lag()), mean, variance);
      MomentsAreRightExactly(vpins[..zCount], Skew(Lag()), SkewSq(Lag()));
      if Valid() {
        ValidHasNoSkew();
        VarianceNonNegative(vpins[..zCount]);
      }
    }

    lemma {:induction false} RunningSumsAreSkewed()
      requires zCount <= vpins.Length
      ensures vpinSum == Sum(vpins[..zCount]) + Skew(Lag()) && vpinSqSum == SumSq(vpins[..zCount]) + SkewSq(Lag())
    {
      SumsSplit(vpins[..], zCount);
      assert vpins[..][..zCount] == vpins[..zCount] && vpins[..][zCount..] == vpins[zCount..];
    }

    method FromSums() returns (mean: real, variance: real)
      requires zCount > 0
      ensures mean == vpinSum / zCount as real && variance == vpinSqSum / zCount as real - mean * mean
    {
      var n := if zCount > 0 then zCount else 1;
      mean := vpinSum / n as real;
      variance := vpinSqSum / n as real - mean * mean;
    }

    /**
     `process_bar`, in any run, resets included: a signal appears exactly once the window since the last
     reset is full, and its value is exactly the window's share less the lag a reset left behind, which
     stays until the next decay or rebuild. The anomaly is the test against the history skewed by it.
     Without a reset there is no lag and the anomaly is right.
     */
    method ProcessBar(bar: Bar, now: real, decay: real) returns (r: Option<Signal>)
      requires Sound() && volumeThreshold > 0.0
      modifies this, imbalances, prices, vpins
      ensures Sound()
      ensures old(Valid()) ==> Valid()
      ensures old(NonNegative(imbalances[..])) && decay >= 0.0 ==> NonNegative(imbalances[..])
      ensures closes == old(closes) + [bar.close]
      ensures flow == (if now - old(lastUpdate) > gapSec then Scaled(old(flow), decay) else old(flow))
                      + [Abs(bar.buyUsd - bar.sellUsd)]
      ensures r.Some? <==> |closes| >= windowSize
      ensures r.Some? ==>
              SignalFollows(r.value, bar, if now - old(lastUpdate) > gapSec then 0.0 else old(Lag()).imbalance)
      ensures r.Some? ==>
              AnomalyFollows(r.value.vpin, r.value.anomaly,
                             if now - old(lastUpdate) > gapSec then NO_LAG else old(Lag()))
      ensures r.Some? && old(Valid()) ==> AnomalyIsRight(r.value.vpin, r.value.anomaly)
      ensures Lag() == if now - old(lastUpdate) > gapSec || (r.Some? && old(barsSinceRebuild) + 1 >= rebuildInterval)
                       then NO_LAG else old(Lag())
    {
      Ingest(bar, now, decay);
      r := None;
      if filled {
        var signal := Emit(bar);
        r := Some(signal);
      }
    }

    /** The time-gap guard and the imbalance ring. */
    method Ingest(bar: Bar, now: real, decay: real)
      requires Sound()
      modifies this`lastUpdate, this`imbalanceSum, this`vpinSum, this`vpinSqSum, this`index, this`filled, this`flow,
               this`closes, imbalances, prices, vpins
      ensures Sound() && lastUpdate == now
      ensures old(Valid()) ==> Valid()
      ensures old(NonNegative(imbalances[..])) && decay >= 0.0 ==> NonNegative(imbalances[..])
      ensures closes == old(closes) + [bar.close]
      ensures flow == (if now - old(lastUpdate) > gapSec then Scaled(old(flow), decay) else old(flow))
                      + [Abs(bar.buyUsd - bar.sellUsd)]
      ensures Lag() == if now - old(lastUpdate) > gapSec then NO_LAG else old(Lag())
    {
      var delta := now - lastUpdate;
      lastUpdate := now;
      if delta > gapSec {
        ApplyTimeDecay(decay);
      }
      PushImbalance(Abs(bar.buyUsd - bar.sellUsd), bar.close);
    }

    /** The signal for the bar just ingested into a full window. */
    method Emit(bar: Bar) returns (signal: Signal)
      requires Sound() && filled && volumeThreshold > 0.0
      modifies this`zIndex, this`zCount, this`vpinSum, this`vpinSqSum, this`imbalanceSum, this`barsSinceRebuild, vpins
      ensures Sound() && SignalFollows(signal, bar, old(Lag()).imbalance)
      ensures AnomalyFollows(signal.vpin, signal.anomaly, old(Lag()))
      ensures old(Valid()) ==> Valid() && AnomalyIsRight(signal.vpin, signal.anomaly)
      ensures imbalances[..] == old(imbalances[..])
      ensures Lag() == if old(barsSinceRebuild) + 1 >= rebuildInterval then NO_LAG else old(Lag())
    {
      SlotMinusCapacity(|closes|, windowSize);
      var oldest := prices[index];
      assert oldest == prices[..][Slot(|closes| - windowSize, windowSize)] == closes[|closes| - windowSize];
      assert imbalanceSum == Sum(Window(flow, windowSize)) - Lag().imbalance;
      var vpin := Share(imbalanceSum, volumeThreshold, windowSize);
      var anomaly := Score(vpin);
      signal := Classify(vpin, anomaly, bar, oldest);
    }

    /** The z-score half of `process_bar`, including the periodic rebuild of the sums. */
    method Score(vpin: real) returns (anomaly: bool)
      requires Sound()
      modifies this`zIndex, this`zCount, this`vpinSum, this`vpinSqSum, this`imbalanceSum, this`barsSinceRebuild, vpins
      ensures Sound() && imbalances[..] == old(imbalances[..])
      ensures AnomalyFollows(vpin, anomaly, old(Lag()))
      ensures old(Valid()) ==> Valid() && AnomalyIsRight(vpin, anomaly)
      ensures Lag() == if old(barsSinceRebuild) + 1 >= rebuildInterval then NO_LAG else old(Lag())
    {
      anomaly := Test(vpin);
      barsSinceRebuild := barsSinceRebuild + 1;
      if barsSinceRebuild >= rebuildInterval {
        RebuildSums();
      }
    }

    method Test(vpin: real) returns (anomaly: bool)
      requires Sound()
      modifies this`zIndex, this`zCount, this`vpinSum, this`vpinSqSum, vpins
      ensures Sound() && imbalances[..] == old(imbalances[..]) && Lag() == old(Lag())
      ensures AnomalyFollows(vpin, anomaly, old(Lag()))
      ensures old(Valid()) ==> Valid() && AnomalyIsRight(vpin, anomaly)
    {
      var slot := PushVpin(vpin);
      var mean, variance := Moments();
      anomaly := Exceeds(vpin, mean, Floored(variance), zThreshold);
      assert vpins[..zCount][slot] == vpins[..][slot] == vpin;
      if Valid() {
        ValidHasNoSkew();
        WithoutSkewAnomalyIsRight(vpin, anomaly, Lag());
      }
    }
  }

  lemma {:induction false} NotPositive(a: real, b: real)
    requires a >= 0.0 && b <= 0.0
    ensures a * b <= 0.0
  {
  }

  /**
   The first test after a reset compares the new value not with itself, the only value of its history, but
   with a mean short by the value it overwrites: it raises an anomaly whenever the new value is no larger
   than that and that is above the threshold in units of the smallest deviation.
   */
  lemma {:induction false} FirstTestAfterReset(z: seq<real>, v: real, threshold: real)
    requires z != []
    ensures var ring, lag := z[0 := v], LagOf(0.0, Sum(z), SumSq(z));
            var live, tail := ring[..1], ring[1..];
            var skew, skewSq := Sum(tail) - lag.vpin, SumSq(tail) - lag.vpinSq;
            var variance := Floored(SkewedVariance(live, skew, skewSq));
            && SkewedMean(live, skew) == v - z[0]
            && (0.0 <= v <= z[0] ==> variance == VARIANCE_FLOOR)
            && (0.0 < z[0] && 0.0 <= v <= z[0] && z[0] * z[0] > threshold * threshold * VARIANCE_FLOOR ==>
                Exceeds(v, SkewedMean(live, skew), variance, threshold))
  {
    var live, tail := z[0 := v][..1], z[1..];
    assert z[0 := v][1..] == tail && live == [v] && live[1..] == [];
    assert Sum(live) == v && SumSq(live) == Times(v, v);
    var mean, meanSq := v - z[0], v * v - z[0] * z[0];
    assert meanSq - mean * mean == 2.0 * (z[0] * (v - z[0]));
    if 0.0 <= v <= z[0] {
      NotPositive(z[0], v - z[0]);
    }
  }

  /** One bar with unequal sides and then a reset: the sum of the imbalances now lags by that bar. */
  method ResetAfterOneBar(bar: Bar) returns (e: O1VPINEngine)
    requires bar.buyUsd != bar.sellUsd
    ensures e.Sound() && !e.SumsMatch() && e.Lag().imbalance == Abs(bar.buyUsd - bar.sellUsd) > 0.0
  {
    e := new O1VPINEngine(2, 1.0, 2.5, 2, 10_000, 1.0, 0.0);
    var _ := e.ProcessBar(bar, 0.5, 1.0);
    WarmUpSum(e.imbalances[..], e.flow);
    assert e.flow == [Abs(bar.buyUsd - bar.sellUsd)] && e.flow[1..] == [];
    assert Window(e.flow, 2) == e.flow;
    e.Reset(0.5);
  }

  /** Three sums are zero exactly when the slots are, absolute imbalances provided. */
  lemma {:induction false} SumsVanishExactly(a: seq<real>, z: seq<real>)
    ensures UnusedFrom(a, 0) && UnusedFrom(z, 0) ==> Sum(a) == 0.0 && Sum(z) == 0.0 && SumSq(z) == 0.0
    ensures NonNegative(a) && Sum(a) == 0.0 && SumSq(z) == 0.0 ==> UnusedFrom(a, 0) && UnusedFrom(z, 0)
  {
    ZeroSumSq(z);
    if NonNegative(a) {
      ZeroSum(a);
    }
    if UnusedFrom(a, 0) && UnusedFrom(z, 0) {
      SumOfZeros(a);
      SumOfZeros(z);
      SumSqOfZeros(z);
    }
  }

  /** The absorption filter. */
  method Classify(vpin: real, anomaly: bool, bar: Bar, oldest: real) returns (signal: Signal)
    ensures signal == SignalFor(vpin, anomaly, bar, oldest)
    ensures signal.direction == Long <==> anomaly && bar.buyUsd > bar.sellUsd
    ensures signal.direction == Short <==> anomaly && bar.buyUsd < bar.sellUsd
    ensures signal.absorption <==> (signal.direction == Long && bar.close <= oldest)
                                   || (signal.direction == Short && bar.close >= oldest)
    ensures signal.vpin == vpin && signal.anomaly == anomaly
  {
    var imbalance, move := bar.buyUsd - bar.sellUsd, bar.close - oldest;
    var absorption, direction := false, Neutral;
    if anomaly {
      if imbalance > 0.0 {
        direction := Long;
        if move <= 0.0 {
          absorption := true;
        }
      } else if imbalance < 0.0 {
        direction := Short;
        if move >= 0.0 {
          absorption := true;
        }
      }
    }
    return Signal(vpin, anomaly, absorption, direction);
  }

  /** Buyers dominate but the price did not rise over the window, or sellers dominate and it did not fall. */
  predicate Absorbed(bar: Bar, oldestClose: real) {
    || (bar.buyUsd > bar.sellUsd && bar.close <= oldestClose)
    || (bar.buyUsd < bar.sellUsd && bar.close >= oldestClose)
  }

  function SignalFor(vpin: real, anomaly: bool, bar: Bar, oldestClose: real): Signal {
    Signal(vpin, anomaly, anomaly && Absorbed(bar, oldestClose), DirectionOf(anomaly, bar))
  }

  function DirectionOf(anomaly: bool, bar: Bar): Direction {
    if anomaly && bar.buyUsd > bar.sellUsd then Long
    else if anomaly && bar.buyUsd < bar.sellUsd then Short
    else Neutral
  }
}
