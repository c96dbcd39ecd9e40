/**
 The dollar bar engine: trades are accumulated into bars of a fixed dollar volume, large trades are
 split over several bars, and closed bars live in a ring that is read by bar number.

 Prices, quantities and dollar values are scaled integers. The ghost fields keep the whole history
 that the ring is a window of.
 */
module DollarBars {
  import opened Options
  import opened Modulo

  datatype BarRow = BarRow(tsOpen: int, tsClose: int, open: int, high: int, low: int, close: int,
                           volume: int, dollarVolume: int, ema: int, index: int, synthetic: bool)

  const ZERO_ROW := BarRow(0, 0, 0, 0, 0, 0, 0, 0, 0, 0, false)

  const ALPHA_SCALE: int := 1_000_000

  function TotalVolume(bars: seq<BarRow>): int {
    if bars == [] then 0 else TotalVolume(bars[..|bars| - 1]) + bars[|bars| - 1].volume
  }

  ghost predicate ClosesWithin(bars: seq<BarRow>, lo: int, hi: int) {
    forall i :: 0 <= i < |bars| ==> lo <= bars[i].close <= hi
  }

  /* In every positive range that holds all closes. */
  ghost predicate WithinCloses(bars: seq<BarRow>, x: int) {
    bars != [] ==> forall lo, hi :: 0 < lo && ClosesWithin(bars, lo, hi) ==> lo <= x <= hi
  }

  ghost predicate BarsAreSound(bars: seq<BarRow>, threshold: int) {
    forall i :: 0 <= i < |bars| ==>
      bars[i].dollarVolume == threshold && bars[i].index == i && OhlcOrdered(bars[i])
  }

  ghost predicate OhlcOrdered(b: BarRow) {
    0 < b.low <= b.open <= b.high && b.low <= b.close <= b.high
  }

  /* One price quoted into a bar; `split` when the trade had already closed a bar before. */
  datatype Tick = Tick(price: int, ts: int, split: bool)

  ghost predicate Extremes(high: int, low: int, ticks: seq<Tick>) {
    && (forall i :: 0 <= i < |ticks| ==> low <= ticks[i].price <= high)
    && (exists i :: 0 <= i < |ticks| && ticks[i].price == high)
    && (exists i :: 0 <= i < |ticks| && ticks[i].price == low)
  }

  /** The row shows exactly these ticks: opened by the first, closed by the last, between the extremes of all. */
  ghost predicate Shows(b: BarRow, ticks: seq<Tick>) {
    && ticks != [] && Extremes(b.high, b.low, ticks)
    && b.open == ticks[0].price && b.tsOpen == ticks[0].ts && b.synthetic == ticks[0].split
    && b.close == ticks[|ticks| - 1].price && b.tsClose == ticks[|ticks| - 1].ts
  }

  ghost predicate AllShow(bars: seq<BarRow>, quoted: seq<seq<Tick>>) {
    |quoted| == |bars| && forall i :: 0 <= i < |bars| ==> Shows(bars[i], quoted[i])
  }

  /* The accumulated prices of an open bar are those of its ticks so far. */
  ghost predicate OpenAs(openTs: int, openPx: int, high: int, low: int, close: int, split: bool, ticks: seq<Tick>) {
    ticks != [] ==>
      && Extremes(high, low, ticks) && openPx == ticks[0].price && openTs == ticks[0].ts && split == ticks[0].split
      && close == ticks[|ticks| - 1].price
  }

  lemma {:induction false} ClosedShows(b: BarRow, ticks: seq<Tick>)
    requires ticks != [] && OpenAs(b.tsOpen, b.open, b.high, b.low, b.close, b.synthetic, ticks)
    requires b.tsClose == ticks[|ticks| - 1].ts
    ensures Shows(b, ticks)
  {
  }

  lemma {:induction false} OpenOneMore(openTs: int, openPx: int, high: int, low: int, close: int, split: bool,
                                       ticks: seq<Tick>, t: Tick)
    requires OpenAs(openTs, openPx, high, low, close, split, ticks)
    ensures var first := ticks == [];
            OpenAs(if first then t.ts else openTs, if first then t.price else openPx,
                   if first || t.price > high then t.price else high, if first || t.price < low then t.price else low,
                   t.price, if first then t.split else split, ticks + [t])
  {
    ExtremesOneMore(high, low, ticks, t);
  }

  lemma {:induction false} PrefixStays(a: seq<BarRow>, b: seq<BarRow>, c: seq<BarRow>)
    requires |a| <= |b| <= |c| && b[..|a|] == a && c[..|b|] == b
    ensures c[..|a|] == a
  {
    assert c[..|a|] == c[..|b|][..|a|];
  }

  lemma {:induction false} AllShowOneMore(bars: seq<BarRow>, quoted: seq<seq<Tick>>, b: BarRow, ticks: seq<Tick>)
    requires AllShow(bars, quoted) && Shows(b, ticks)
    ensures AllShow(bars + [b], quoted + [ticks])
  {
  }

  lemma {:induction false} ExtremesOneMore(high: int, low: int, ticks: seq<Tick>, t: Tick)
    requires ticks == [] || Extremes(high, low, ticks)
    ensures Extremes(if ticks == [] || t.price > high then t.price else high,
                     if ticks == [] || t.price < low then t.price else low, ticks + [t])
  {
    var longer := ticks + [t];
    assert longer[|ticks|] == t && forall i :: 0 <= i < |ticks| ==> longer[i] == ticks[i];
  }

  /* What one trade adds to the ticks: the first bar it closes gets it, any later one is its own alone. */
  ghost predicate TicksGrow(before: seq<seq<Tick>>, was: seq<Tick>, price: int, ts: int, produced: nat,
                            quoted: seq<seq<Tick>>, open: seq<Tick>, begun: bool)
  {
    var whole, rest := Tick(price, ts, false), Tick(price, ts, true);
    && |quoted| == |before| + produced && quoted[..|before|] == before
    && (produced == 0 ==> open == was + [whole])
    && (produced > 0 ==>
          && quoted[|before|] == was + [whole] && open == (if begun then [rest] else [])
          && forall k :: |before| < k < |quoted| ==> quoted[k] == [rest])
  }

  /* Before the next piece: nothing added yet, or a bar just closed. */
  ghost predicate Splitting(before: seq<seq<Tick>>, was: seq<Tick>, price: int, ts: int, produced: nat,
                            quoted: seq<seq<Tick>>, open: seq<Tick>)
  {
    if produced == 0 then quoted == before && open == was
    else TicksGrow(before, was, price, ts, produced, quoted, open, false)
  }

  lemma {:induction false} OneMorePiece(before: seq<seq<Tick>>, was: seq<Tick>, price: int, ts: int, produced: nat,
                                        quoted: seq<seq<Tick>>, open: seq<Tick>, closed: bool)
    requires Splitting(before, was, price, ts, produced, quoted, open)
    ensures var piece := open + [Tick(price, ts, produced > 0)];
            && (closed ==> TicksGrow(before, was, price, ts, produced + 1, quoted + [piece], [], false))
            && (!closed ==> TicksGrow(before, was, price, ts, produced, quoted, piece, true))
  {
    if closed {
      var piece := open + [Tick(price, ts, produced > 0)];
      var longer := quoted + [piece];
      assert longer[..|before|] == quoted[..|before|];
    }
  }

  /** One EMA update in fixed point. */
  function NextEma(ema: int, close: int, period: nat): int {
    if ema == 0 then close
    else
      (close * (2 * ALPHA_SCALE) + ema * ((period + 1) * ALPHA_SCALE - 2 * ALPHA_SCALE)) / ((period + 1) * ALPHA_SCALE)
  }

  lemma {:induction false} CommonFactor(a: int, b: int, f: int)
    requires b > 0 && f > 0
    ensures f * b > 0 && (f * a) / (f * b) == a / b
  {
    var q, r := a / b, a % b;
    assert f * a == q * (f * b) + f * r by {
      assert a == q * b + r;
      assert f * (q * b) == q * (f * b);
    }
    assert 0 <= f * r < f * b;
    DivisionIs(f * a, f * b, q, f * r);
  }

  /** After its first bar the EMA moves by two parts in period + 1, whatever the fixed-point scale. */
  lemma {:induction false} EmaIsTwoOverPeriodPlusOne(ema: int, close: int, period: nat)
    ensures NextEma(0, close, period) == close
    ensures ema != 0 ==> NextEma(ema, close, period) == (2 * close + (period - 1) * ema) / (period + 1)
  {
    var s := ALPHA_SCALE;
    assert close * (2 * s) + ema * ((period + 1) * s - 2 * s) == s * (2 * close + (period - 1) * ema) by {
      assert ema * ((period + 1) * s - 2 * s) == s * ((period - 1) * ema);
    }
    CommonFactor(2 * close + (period - 1) * ema, period + 1, s);
  }

  lemma {:induction false} WeightedFloor(a: int, b: int, x: int, y: int, lo: int, hi: int)
    requires a >= 0 && b >= 0 && a + b > 0 && lo <= x <= hi && lo <= y <= hi
    ensures lo <= (x * a + y * b) / (a + b) <= hi
  {
    assert lo * a <= x * a <= hi * a;
    assert lo * b <= y * b <= hi * b;
    assert lo * (a + b) == lo * a + lo * b && hi * (a + b) == hi * a + hi * b;
    QuotientWithin(x * a + y * b, a + b, lo, hi);
  }

  lemma {:induction false} QuotientWithin(n: int, d: int, lo: int, hi: int)
    requires d > 0 && lo * d <= n <= hi * d
    ensures lo <= n / d <= hi
  {
    assert (hi + 1) * d == hi * d + d;
    QuotientAtLeast(n, d, lo);
    QuotientAtLeast(n, d, hi + 1);
  }

  /** For a period of at least 1 the EMA is a weighted average, so it cannot leave the range of the closes. */
  lemma {:induction false} EmaStaysWithin(ema: int, close: int, period: nat, lo: int, hi: int)
    requires period >= 1 && lo <= close <= hi && (ema == 0 || lo <= ema <= hi)
    ensures lo <= NextEma(ema, close, period) <= hi
  {
    if ema != 0 {
      WeightedFloor(2 * ALPHA_SCALE, (period + 1) * ALPHA_SCALE - 2 * ALPHA_SCALE, close, ema, lo, hi);
    }
  }

  /** The integer Welford mean moves towards the new close and never past it. */
  lemma {:induction false} MeanMovesTowards(mean: int, close: int, n: nat)
    requires n >= 1
    ensures var next := mean + (close - mean) / n;
            && (mean <= close ==> mean <= next <= close)
            && (close <= mean ==> close <= next <= mean)
            && (close - mean) * (close - next) >= 0
  {
    var d := close - mean;
    StepWithin(d, n);
    SameSign(d, d - d / n);
  }

  lemma {:induction false} StepWithin(d: int, n: nat)
    requires n >= 1
    ensures if d >= 0 then 0 <= d / n <= d else d <= d / n <= 0
  {
    SameSign(d, n - 1);
    assert d * n == d + d * (n - 1);
    if d >= 0 {
      QuotientWithin(d, n, 0, d);
    } else {
      OppositeSign(d, n - 1);
      QuotientWithin(d, n, d, 0);
    }
  }

  lemma {:induction false} SameSign(a: int, b: int)
    ensures (a >= 0 && b >= 0) || (a <= 0 && b <= 0) ==> a * b >= 0
  {
  }

  lemma {:induction false} OppositeSign(a: int, b: int)
    requires a <= 0 && b >= 0
    ensures a * b <= 0
  {
  }

  /** The chunk of quantity for the dollars that close a bar: never more than remains, all of it at the end. */
  lemma {:induction false} ChunkWithin(qty: int, needed: int, dollars: int)
    requires qty >= 0 && 0 < needed <= dollars
    ensures 0 <= (qty * needed) / dollars <= qty
    ensures needed == dollars ==> (qty * needed) / dollars == qty
  {
    assert 0 * dollars <= qty * needed <= qty * dollars;
    QuotientWithin(qty * needed, dollars, 0, qty);
    if needed == dollars {
      QuotientWithin(qty * needed, dollars, qty, qty);
    }
  }

  /* The share of the quantity that goes with a share of the dollars, rounded down. */
  ghost predicate FairShare(part: int, qty: int, dollars: int, of: int) {
    part * of <= qty * dollars < (part + 1) * of
  }

  /* What was taken of the quantity is the fair share for what was taken of the dollars. */
  ghost predicate FairPiece(qty: int, qtyLeft: int, dollars: int, dollarsLeft: int) {
    FairShare(qty - qtyLeft, qty, dollars - dollarsLeft, dollars)
  }

  lemma {:induction false} ChunkIsFair(qty: int, needed: int, dollars: int)
    requires dollars > 0
    ensures FairShare((qty * needed) / dollars, qty, needed, dollars)
  {
    var n := qty * needed;
    assert n == (n / dollars) * dollars + n % dollars;
    assert (n / dollars + 1) * dollars == (n / dollars) * dollars + dollars;
  }

  lemma {:induction false} WholeShare(qty: int, dollars: int)
    requires dollars > 0
    ensures FairPiece(qty, 0, dollars, 0)
  {
    assert (qty + 1) * dollars == qty * dollars + dollars;
  }

  lemma {:induction false} VolumeOneMore(bars: seq<BarRow>, row: BarRow)
    ensures TotalVolume(bars + [row]) == TotalVolume(bars) + row.volume
  {
    assert (bars + [row])[..|bars|] == bars;
  }

  lemma {:induction false} OneMoreThreshold(n: nat, threshold: int)
    ensures (n + 1) * threshold == n * threshold + threshold
  {
  }

  class DollarBarEngine {
    const threshold: int
    const capacity: nat
    const scale: int
    const emaPeriod: nat
    const buf: array<BarRow>

    var head: nat
    var barCount: nat
    var dollarAcc: int
    var volAcc: int
    var tradeCount: nat
    var openTs: int
    var openPx: int
    var high: int
    var low: int
    var close: int
    var ema: int
    var varCount: nat
    var varMean: int
    var varM2: int

    ghost var bars: seq<BarRow>
    ghost var dollarsIn: int
    ghost var qtyIn: int
    /* The ticks of every closed bar, and of the open one. */
    ghost var quoted: seq<seq<Tick>>
    ghost var openTicks: seq<Tick>

    ghost predicate Shape()
      reads this
    {
      && threshold > 0 && scale > 0 && capacity > 0 && buf.Length == capacity
      && |bars| == barCount == varCount && head == Slot(barCount, capacity)
    }

    /* Nothing accepted is lost: dollars by quotient and remainder, quantity by addition. */
    ghost predicate Conserved()
      reads this
    {
      && dollarsIn == barCount * threshold + dollarAcc && 0 <= dollarAcc < threshold
      && qtyIn == TotalVolume(bars) + volAcc
      && (tradeCount == 0 ==> dollarAcc == 0)
    }

    ghost predicate OpenBarOrdered()
      reads this
    {
      tradeCount > 0 ==> 0 < low <= openPx <= high && low <= close <= high
    }

    /* Slot of bar j holds bar j, for all but the oldest bar of a full ring; the head slot is cleared. */
    ghost predicate RingHolds()
      reads this, buf
      requires Shape()
    {
      && (forall j :: 0 <= j < barCount && barCount - capacity < j ==> buf[Slot(j, capacity)] == bars[j])
      && buf[head].(synthetic := false) == ZERO_ROW
    }

    /* The open bar shows the ticks quoted into it so far. */
    ghost predicate OpenShows()
      reads this, buf
      requires Shape()
    {
      tradeCount == |openTicks| && OpenAs(openTs, openPx, high, low, close, buf[head].synthetic, openTicks)
    }

    ghost predicate Indicators()
      reads this
    {
      && (barCount == 0 ==> ema == 0 && varMean == 0 && varM2 == 0)
      && WithinCloses(bars, varMean) && (emaPeriod >= 1 ==> WithinCloses(bars, ema))
    }

    ghost predicate Core()
      reads this, buf
    {
      && Shape() && Conserved() && OpenBarOrdered() && RingHolds() && Indicators()
      && BarsAreSound(bars, threshold)
    }

    /* Every bar shows its ticks. */
    ghost predicate Ticked()
      reads this, buf
      requires Shape()
    {
      AllShow(bars, quoted) && OpenShows()
    }

    ghost predicate Valid()
      reads this, buf
    {
      Core() && Ticked()
    }

    /* The source refuses a threshold that is not positive; a ring and a scale must not be zero either. */
    constructor (threshold: int, capacity: nat, emaPeriod: nat, scale: int)
      requires threshold > 0 && capacity > 0 && scale > 0
      ensures Valid() && bars == [] && dollarsIn == 0 && qtyIn == 0 && openTicks == [] && fresh(buf)
      ensures this.threshold == threshold && this.capacity == capacity && this.scale == scale
    {
      this.threshold, this.capacity, this.emaPeriod, this.scale := threshold, capacity, emaPeriod, scale;
      buf := new BarRow[capacity](_ => ZERO_ROW);
      head, barCount, dollarAcc, volAcc, tradeCount := 0, 0, 0, 0, 0;
      openTs, openPx, high, low, close := 0, 0, 0, 0, 0;
      ema, varCount, varMean, varM2 := 0, 0, 0, 0;
      bars, dollarsIn, qtyIn, quoted, openTicks := [], 0, 0, [], [];
      new;
      SmallSlot(0, capacity);
    }

    /** EMA and Welford variance of `_close_bar`; the sum of squares never decreases. */
    method UpdateIndicators()
      modifies this`ema, this`varCount, this`varMean, this`varM2
      ensures varCount == old(varCount) + 1
      ensures ema == NextEma(old(ema), close, emaPeriod)
      ensures varMean == old(varMean) + (close - old(varMean)) / varCount
      ensures varM2 == old(varM2) + (close - old(varMean)) * (close - varMean) >= old(varM2)
    {
      if ema == 0 {
        ema := close;
      } else {
        ema := (close * (2 * ALPHA_SCALE) + ema * ((emaPeriod + 1) * ALPHA_SCALE - 2 * ALPHA_SCALE))
               / ((emaPeriod + 1) * ALPHA_SCALE);
      }
      varCount := varCount + 1;
      var delta := close - varMean;
      MeanMovesTowards(varMean, close, varCount);
      varMean := varMean + delta / varCount;
      var delta2 := close - varMean;
      varM2 := varM2 + delta * delta2;
    }

    lemma {:induction false} IndicatorsAfterClose(row: BarRow)
      requires Shape() && Indicators() && row.close > 0
      ensures WithinCloses(bars + [row], varMean + (row.close - varMean) / (varCount + 1))
      ensures emaPeriod >= 1 ==> WithinCloses(bars + [row], NextEma(ema, row.close, emaPeriod))
    {
      forall lo, hi | 0 < lo && ClosesWithin(bars + [row], lo, hi)
        ensures lo <= varMean + (row.close - varMean) / (varCount + 1) <= hi
        ensures emaPeriod >= 1 ==> lo <= NextEma(ema, row.close, emaPeriod) <= hi
      {
        assert (bars + [row])[|bars|] == row;
        assert forall i :: 0 <= i < |bars| ==> (bars + [row])[i] == bars[i];
        assert ClosesWithin(bars, lo, hi);
        if barCount > 0 {
          MeanMovesTowards(varMean, row.close, varCount + 1);
        }
        if emaPeriod >= 1 {
          EmaStaysWithin(ema, row.close, emaPeriod, lo, hi);
        }
      }
    }

    /** `_close_bar`, called when the accumulator has just reached the threshold. */
    method CloseBar(ts: int)
      requires Shape() && RingHolds() && Indicators() && OpenBarOrdered() && BarsAreSound(bars, threshold)
      requires tradeCount > 0 && dollarAcc == threshold
      modifies this, buf
      ensures quoted == old(quoted) && openTicks == old(openTicks)
      ensures Shape() && RingHolds() && Indicators() && OpenBarOrdered() && BarsAreSound(bars, threshold)
      ensures bars == old(bars) + [BarRow(old(openTs), ts, old(openPx), old(high), old(low), old(close),
                                          old(volAcc), threshold, ema, old(barCount), old(buf[head].synthetic))]
      ensures dollarAcc == 0 && volAcc == 0 && tradeCount == 0
      ensures barCount == old(barCount) + 1 && dollarsIn == old(dollarsIn) && qtyIn == old(qtyIn)
      ensures varM2 >= old(varM2) && !buf[head].synthetic
    {
      ghost var row0 := BarRow(openTs, ts, openPx, high, low, close, volAcc, dollarAcc,
                               NextEma(ema, close, emaPeriod), barCount, buf[head].synthetic);
      IndicatorsAfterClose(row0);
      UpdateIndicators();
      StoreRow(BarRow(openTs, ts, openPx, high, low, close, volAcc, dollarAcc, ema, barCount, buf[head].synthetic));
      dollarAcc, volAcc, tradeCount := 0, 0, 0;
    }

    /** Write the row at the head, advance, and clear the next slot. */
    method StoreRow(row: BarRow)
      requires threshold > 0 && capacity > 0 && buf.Length == capacity
      requires |bars| == barCount && head == Slot(barCount, capacity) && RingWindow()
      modifies this`head, this`barCount, this`bars, buf
      ensures |bars| == barCount && head == Slot(barCount, capacity) && RingWindow()
      ensures bars == old(bars) + [row] && buf[head] == ZERO_ROW
    {
      ghost var n := barCount;
      forall j | 0 <= j < n && n - capacity < j
        ensures Slot(j, capacity) != head
      {
        SlotsApart(j, n, capacity);
      }
      buf[head] := row;
      barCount := barCount + 1;
      NextSlot(n, capacity);
      head := (head + 1) % capacity;
      assert head == Slot(n + 1, capacity) by { WrapOnce(Slot(n, capacity), capacity); }
      forall j | 0 <= j < n + 1 && n + 1 - capacity < j
        ensures Slot(j, capacity) != head
      {
        SlotsApart(j, n + 1, capacity);
      }
      buf[head] := ZERO_ROW;
      bars := bars + [row];
    }

    /** Start or extend the open bar with one price; a bar opened here is marked synthetic after a split. */
    method Quote(price: int, ts: int, synthetic: bool)
      requires Valid() && price > 0
      modifies this`tradeCount, this`openTs, this`openPx, this`high, this`low, this`close, this`openTicks, buf
      ensures Open() && Ticked() && tradeCount == old(tradeCount) + 1
      ensures openTicks == old(openTicks) + [Tick(price, ts, synthetic)]
    {
      OpenOneMore(openTs, openPx, high, low, close, buf[head].synthetic, openTicks, Tick(price, ts, synthetic));
      Reprice(price, ts, synthetic);
      openTicks := openTicks + [Tick(price, ts, synthetic)];
    }

    /* Everything but the ticks, while a bar is being filled. */
    ghost predicate Open()
      reads this, buf
    {
      Shape() && Accrued() && RingHolds() && Indicators() && BarsAreSound(bars, threshold) && OpenBarOrdered()
    }

    method Reprice(price: int, ts: int, synthetic: bool)
      requires Core() && price > 0
      modifies this`tradeCount, this`openTs, this`openPx, this`high, this`low, this`close, buf
      ensures Open() && tradeCount == old(tradeCount) + 1 && close == price
      ensures var first := old(tradeCount) == 0;
              && openTs == (if first then ts else old(openTs)) && openPx == (if first then price else old(openPx))
              && high == (if first || price > old(high) then price else old(high))
              && low == (if first || price < old(low) then price else old(low))
              && buf[head].synthetic == (if first then synthetic else old(buf[head].synthetic))
    {
      if tradeCount == 0 {
        MarkHead(synthetic);
      }
      Extend(price, ts);
    }

    method Extend(price: int, ts: int)
      modifies this`tradeCount, this`openTs, this`openPx, this`high, this`low, this`close
      ensures tradeCount == old(tradeCount) + 1 && close == price
      ensures openTs == (if old(tradeCount) == 0 then ts else old(openTs))
      ensures openPx == (if old(tradeCount) == 0 then price else old(openPx))
      ensures high == (if old(tradeCount) == 0 || price > old(high) then price else old(high))
      ensures low == (if old(tradeCount) == 0 || price < old(low) then price else old(low))
    {
      if tradeCount == 0 {
        openTs, openPx, high, low := ts, price, price, price;
      }
      if price > high {
        high := price;
      }
      if price < low {
        low := price;
      }
      close := price;
      tradeCount := tradeCount + 1;
    }

    /* The flag of the row that is still being filled. */
    method MarkHead(synthetic: bool)
      requires Shape() && RingHolds()
      modifies buf
      ensures RingHolds() && buf[head].synthetic == synthetic
    {
      forall j | 0 <= j < barCount && barCount - capacity < j
        ensures Slot(j, capacity) != head
      {
        SlotsApart(j, barCount, capacity);
      }
      buf[head] := buf[head].(synthetic := synthetic);
    }

    /* Conservation without the clause that an unstarted bar is empty. */
    ghost predicate Accrued()
      reads this
    {
      && dollarsIn == barCount * threshold + dollarAcc && 0 <= dollarAcc < threshold
      && qtyIn == TotalVolume(bars) + volAcc
    }

    /** One turn of the splitting loop: fill the open bar from the trade, closing it when it is full. */
    method Absorb(price: int, ts: int, synthetic: bool, dollars: int, qty: int)
        returns (dollarsLeft: int, qtyLeft: int, closed: bool)
      requires Valid() && price > 0 && dollars > 0 && qty >= 0
      modifies this, buf
      ensures Valid()
      ensures 0 <= dollarsLeft < dollars && 0 <= qtyLeft && (dollarsLeft == 0 ==> qtyLeft == 0)
      ensures dollarsIn == old(dollarsIn) + dollars - dollarsLeft && qtyIn == old(qtyIn) + qty - qtyLeft
      ensures varM2 >= old(varM2)
      ensures closed ==> tradeCount == 0 && |bars| == |old(bars)| + 1 && bars[..|old(bars)|] == old(bars)
                         && quoted == old(quoted) + [old(openTicks) + [Tick(price, ts, synthetic)]] && openTicks == []
      ensures !closed ==> dollarsLeft == 0 && bars == old(bars) && dollarAcc > 0
                          && quoted == old(quoted) && openTicks == old(openTicks) + [Tick(price, ts, synthetic)]
      ensures FairPiece(qty, qtyLeft, dollars, dollarsLeft)
    {
      Quote(price, ts, synthetic);
      dollarsLeft, qtyLeft, closed := FillFrom(ts, dollars, qty);
    }

    /* Fill the open bar from what is left of the trade, closing it when that is enough. */
    method FillFrom(ts: int, dollars: int, qty: int) returns (dollarsLeft: int, qtyLeft: int, closed: bool)
      requires Open() && Ticked() && tradeCount > 0 && openTicks[tradeCount - 1].ts == ts && dollars > 0 && qty >= 0
      modifies this, buf
      ensures Valid()
      ensures 0 <= dollarsLeft < dollars && 0 <= qtyLeft && (dollarsLeft == 0 ==> qtyLeft == 0)
      ensures dollarsIn == old(dollarsIn) + dollars - dollarsLeft && qtyIn == old(qtyIn) + qty - qtyLeft
      ensures varM2 >= old(varM2) && FairPiece(qty, qtyLeft, dollars, dollarsLeft)
      ensures closed ==> tradeCount == 0 && |bars| == |old(bars)| + 1 && bars[..|old(bars)|] == old(bars)
                         && quoted == old(quoted) + [old(openTicks)] && openTicks == []
      ensures !closed ==> dollarsLeft == 0 && bars == old(bars) && dollarAcc > 0
                          && quoted == old(quoted) && openTicks == old(openTicks)
    {
      if dollars >= threshold - dollarAcc {
        dollarsLeft, qtyLeft := CloseFrom(ts, dollars, qty);
        closed := true;
      } else {
        WholeShare(qty, dollars);
        Accumulate(dollars, qty);
        dollarsLeft, qtyLeft, closed := 0, 0, false;
      }
    }

    method CloseFrom(ts: int, dollars: int, qty: int) returns (dollarsLeft: int, qtyLeft: int)
      requires Open() && Ticked() && tradeCount > 0 && openTicks[tradeCount - 1].ts == ts
      requires dollars >= threshold - dollarAcc && qty >= 0
      modifies this, buf
      ensures Valid() && tradeCount == 0 && quoted == old(quoted) + [old(openTicks)] && openTicks == []
      ensures 0 <= dollarsLeft < dollars && 0 <= qtyLeft && (dollarsLeft == 0 ==> qtyLeft == 0)
      ensures dollarsIn == old(dollarsIn) + dollars - dollarsLeft && qtyIn == old(qtyIn) + qty - qtyLeft
      ensures varM2 >= old(varM2) && FairPiece(qty, qtyLeft, dollars, dollarsLeft)
      ensures |bars| == |old(bars)| + 1 && bars[..|old(bars)|] == old(bars)
    {
      var needed := threshold - dollarAcc;
      var chunk := Chunk(qty, needed, dollars);
      CloseTicked(needed, chunk, ts);
      dollarsLeft, qtyLeft := dollars - needed, qty - chunk;
    }

    method Chunk(qty: int, needed: int, dollars: int) returns (chunk: int)
      requires qty >= 0 && 0 < needed <= dollars
      ensures 0 <= chunk <= qty && (needed == dollars ==> chunk == qty) && FairShare(chunk, qty, needed, dollars)
    {
      ChunkWithin(qty, needed, dollars);
      ChunkIsFair(qty, needed, dollars);
      chunk := (qty * needed) / dollars;
    }

    method Accumulate(dollars: int, qty: int)
      requires Open() && Ticked() && tradeCount > 0 && 0 <= dollars < threshold - dollarAcc
      modifies this`dollarAcc, this`volAcc, this`dollarsIn, this`qtyIn
      ensures Valid() && dollarsIn == old(dollarsIn) + dollars && qtyIn == old(qtyIn) + qty
      ensures dollarAcc == old(dollarAcc) + dollars
    {
      dollarAcc, volAcc := dollarAcc + dollars, volAcc + qty;
      dollarsIn, qtyIn := dollarsIn + dollars, qtyIn + qty;
    }

    method FillAndClose(needed: int, chunk: int, ts: int)
      requires Open() && tradeCount > 0 && needed == threshold - dollarAcc
      modifies this, buf
      ensures Core() && tradeCount == 0 && quoted == old(quoted) && openTicks == old(openTicks)
      ensures dollarsIn == old(dollarsIn) + needed && qtyIn == old(qtyIn) + chunk && varM2 >= old(varM2)
      ensures bars == old(bars) + [BarRow(old(openTs), ts, old(openPx), old(high), old(low), old(close),
                                          old(volAcc) + chunk, threshold, ema, old(barCount), old(buf[head].synthetic))]
    {
      TopUp(needed, chunk);
      ghost var before, n, volume := bars, barCount, volAcc;
      CloseBar(ts);
      VolumeOneMore(before, bars[n]);
      OneMoreThreshold(n, threshold);
    }

    method TopUp(needed: int, chunk: int)
      modifies this`dollarAcc, this`volAcc, this`dollarsIn, this`qtyIn
      ensures dollarAcc == old(dollarAcc) + needed && volAcc == old(volAcc) + chunk
      ensures dollarsIn == old(dollarsIn) + needed && qtyIn == old(qtyIn) + chunk
    {
      dollarAcc, volAcc := dollarAcc + needed, volAcc + chunk;
      dollarsIn, qtyIn := dollarsIn + needed, qtyIn + chunk;
    }

    /* Closing the bar hands its ticks over with it. */
    method CloseTicked(needed: int, chunk: int, ts: int)
      requires Open() && Ticked() && tradeCount > 0 && needed == threshold - dollarAcc
      requires openTicks[tradeCount - 1].ts == ts
      modifies this, buf
      ensures Valid() && tradeCount == 0 && quoted == old(quoted) + [old(openTicks)] && openTicks == []
      ensures dollarsIn == old(dollarsIn) + needed && qtyIn == old(qtyIn) + chunk && varM2 >= old(varM2)
      ensures |bars| == |old(bars)| + 1 && bars[..|old(bars)|] == old(bars)
    {
      ghost var before, ticksBefore := bars, quoted;
      FillAndClose(needed, chunk, ts);
      ghost var row := bars[|before|];
      ClosedShows(row, openTicks);
      AllShowOneMore(before, ticksBefore, row, openTicks);
      quoted, openTicks := quoted + [openTicks], [];
    }

    /**
     `ingest_trade`: the number of bars closed. A trade that is not positive, or worth less than one
     dollar unit, is ignored; any other is accepted whole. Every bar after the first one closed by the
     same trade is flat at the trade price and marked synthetic.
     */
    method IngestTrade(price: int, qty: int, ts: int) returns (produced: nat)
      requires Valid()
      modifies this, buf
      ensures Valid()
      ensures if Accepts(price, qty)
              then dollarsIn == old(dollarsIn) + (price * qty) / scale && qtyIn == old(qtyIn) + qty
              else dollarsIn == old(dollarsIn) && qtyIn == old(qtyIn)
      ensures |bars| == |old(bars)| + produced && bars[..|old(bars)|] == old(bars)
      ensures if Accepts(price, qty)
              then TicksGrow(old(quoted), old(openTicks), price, ts, produced, quoted, openTicks, dollarAcc > 0)
              else produced == 0 && quoted == old(quoted) && openTicks == old(openTicks)
      ensures forall k :: |old(bars)| < k < |bars| ==> Flat(bars[k], price, ts, true)
      ensures varM2 >= old(varM2)
    {
      produced := 0;
      if price <= 0 || qty <= 0 {
        return;
      }
      var dollars := (price * qty) / scale;
      if dollars <= 0 {
        return;
      }
      var left := qty;
      ghost var bars0, quoted0, was, total := bars, quoted, openTicks, dollars;
      while dollars > 0
        invariant Valid() && Cutting(bars0, quoted0, was, price, ts, produced, dollars, left)
        invariant dollarsIn + dollars == old(dollarsIn) + total && qtyIn + left == old(qtyIn) + qty
        invariant varM2 >= old(varM2)
        decreases dollars
      {
        dollars, left, produced := NextPiece(bars0, quoted0, was, price, ts, produced, dollars, left);
      }
      FlatAfterSplit(quoted0, was, price, ts, produced);
    }

    /* What a trade has done so far, with `dollars` and `left` still to be placed. */
    ghost predicate Cutting(bars0: seq<BarRow>, quoted0: seq<seq<Tick>>, was: seq<Tick>, price: int, ts: int,
                            produced: nat, dollars: int, left: int)
      reads this
    {
      && dollars >= 0 && left >= 0 && (dollars == 0 ==> left == 0)
      && |bars| == |bars0| + produced && bars[..|bars0|] == bars0
      && (if dollars > 0 then Splitting(quoted0, was, price, ts, produced, quoted, openTicks)
          else TicksGrow(quoted0, was, price, ts, produced, quoted, openTicks, dollarAcc > 0))
    }

    method NextPiece(ghost bars0: seq<BarRow>, ghost quoted0: seq<seq<Tick>>, ghost was: seq<Tick>, price: int, ts: int,
                     produced: nat, dollars: int, left: int)
        returns (dollarsLeft: int, qtyLeft: int, next: nat)
      requires Valid() && price > 0 && dollars > 0
      requires Cutting(bars0, quoted0, was, price, ts, produced, dollars, left)
      modifies this, buf
      ensures Valid() && Cutting(bars0, quoted0, was, price, ts, next, dollarsLeft, qtyLeft) && dollarsLeft < dollars
      ensures dollarsIn + dollarsLeft == old(dollarsIn) + dollars && qtyIn + qtyLeft == old(qtyIn) + left
      ensures varM2 >= old(varM2)
    {
      ghost var before, ticksBefore, openBefore := bars, quoted, openTicks;
      var closed;
      dollarsLeft, qtyLeft, closed := Absorb(price, ts, produced > 0, dollars, left);
      PrefixStays(bars0, before, bars);
      OneMorePiece(quoted0, was, price, ts, produced, ticksBefore, openBefore, closed);
      next := if closed then produced + 1 else produced;
    }

    lemma {:induction false} FlatAfterSplit(before: seq<seq<Tick>>, was: seq<Tick>, price: int, ts: int, produced: nat)
      requires Valid() && TicksGrow(before, was, price, ts, produced, quoted, openTicks, dollarAcc > 0)
      ensures forall k :: |before| < k < |bars| ==> Flat(bars[k], price, ts, true)
    {
    }

    predicate Accepts(price: int, qty: int)
      reads this
      requires scale != 0
    {
      price > 0 && qty > 0 && (price * qty) / scale > 0
    }

    /** After any tape, bars and open volume are quotient and remainder of the accepted dollars. */
    lemma {:induction false} QuotientAndRemainder()
      requires Valid()
      ensures barCount == dollarsIn / threshold && dollarAcc == dollarsIn % threshold
    {
      DivisionIs(dollarsIn, threshold, barCount, dollarAcc);
    }

    /* What a read of bar number `i` finds. */
    ghost function ReadRow(i: int): Option<BarRow>
      requires Shape()
      reads this, buf
    {
      if i < 0 || i >= barCount || i < barCount - capacity then None else Some(buf[Slot(i, capacity)])
    }

    /** `get_bar_row`; None where the source raises IndexError. */
    method GetBarRow(i: int) returns (row: Option<BarRow>)
      requires Valid()
      ensures row == ReadRow(i)
      ensures row == None <==> i < 0 || i >= barCount || i < barCount - capacity
      ensures row.Some? ==> (row.value == bars[i] <==> i > barCount - capacity)
    {
      if i < 0 || i >= barCount {
        return None;
      }
      var oldest := if barCount - capacity > 0 then barCount - capacity else 0;
      if i < oldest {
        return None;
      }
      SlotBack(barCount, barCount - i, capacity);
      SlotHoldsBar(i);
      return Some(buf[Slot(head - (barCount - i), capacity)]);
    }

    /* The slot of a bar in the ring holds it, except the oldest of a full ring, which is cleared. */
    lemma {:induction false} SlotHoldsBar(i: nat)
      requires Core() && barCount - capacity <= i < barCount
      ensures buf[Slot(i, capacity)] == bars[i] <==> i > barCount - capacity
    {
      if i == barCount - capacity {
        SlotMinusCapacity(barCount, capacity);
      }
    }

    /** What the ring shows for that oldest bar is all zeros. */
    lemma {:induction false} OldestIsCleared(i: nat)
      requires Valid() && i == barCount - capacity
      ensures ReadRow(i).Some?
      ensures ReadRow(i).value.(synthetic := false) == BarRow(0, 0, 0, 0, 0, 0, 0, 0, 0, 0, false)
    {
      SlotMinusCapacity(barCount, capacity);
    }

    lemma {:induction false} RowAheadHoldsBar(from: nat, k: nat)
      requires Core() && k < capacity && barCount - capacity <= from + k < barCount
      ensures var slot := Slot(from, capacity) + k;
              buf[if slot < capacity then slot else slot - capacity] == bars[from + k]
              <==> from + k > barCount - capacity
    {
      SlotAhead(from, k, capacity);
      SlotHoldsBar(from + k);
    }

    /** `get_bars_view`: the rows from `start` on, clamped to the ring, contiguous or wrapped around. */
    method GetBarsView(start: int, count: int) returns (rows: seq<BarRow>)
      requires Valid()
      ensures var from := if start < Oldest() then Oldest() else start;
              var n := if count < barCount - from then count else barCount - from;
              && |rows| == (if n > 0 then n else 0)
              && forall k :: 0 <= k < |rows| ==> (rows[k] == bars[from + k] <==> from + k > barCount - capacity)
    {
      var oldest := if barCount - capacity > 0 then barCount - capacity else 0;
      var from := if start < oldest then oldest else start;
      var n := if count < barCount - from then count else barCount - from;
      if n <= 0 {
        return [];
      }
      rows := ReadFrom(from, n);
    }

    /* `n` rows of the ring from bar `from` on. */
    method ReadFrom(from: nat, n: nat) returns (rows: seq<BarRow>)
      requires Core() && barCount - capacity <= from && from + n <= barCount && n <= capacity
      ensures |rows| == n
      ensures forall k :: 0 <= k < n ==> (rows[k] == bars[from + k] <==> from + k > barCount - capacity)
    {
      SlotBack(barCount, barCount - from, capacity);
      var ringStart := Slot(head - (barCount - from), capacity);
      rows := ReadRing(ringStart, n);
      forall k | 0 <= k < n
        ensures rows[k] == bars[from + k] <==> from + k > barCount - capacity
      {
        RowAheadHoldsBar(from, k);
      }
    }

    /* `n` rows of the ring from slot `ringStart`, sliced once or concatenated around the end. */
    method ReadRing(ringStart: nat, n: nat) returns (rows: seq<BarRow>)
      requires buf.Length == capacity && ringStart < capacity && n <= capacity
      ensures |rows| == n
      ensures forall k :: 0 <= k < n ==>
                rows[k] == buf[if ringStart + k < capacity then ringStart + k else ringStart + k - capacity]
    {
      var ringEnd := ringStart + n;
      if ringEnd <= capacity {
        rows := buf[ringStart..ringEnd];
      } else {
        rows := buf[ringStart..capacity] + buf[..ringEnd - capacity];
      }
    }

    ghost function Oldest(): int
      reads this
    {
      if barCount - capacity > 0 then barCount - capacity else 0
    }

    ghost predicate RingWindow()
      reads this, buf
      requires capacity > 0 && buf.Length == capacity && |bars| == barCount
    {
      forall j :: 0 <= j < barCount && barCount - capacity < j ==> buf[Slot(j, capacity)] == bars[j]
    }
  }

  /* A bar made of one trade alone. */
  ghost predicate Flat(b: BarRow, price: int, ts: int, synthetic: bool) {
    && b.open == price && b.high == price && b.low == price && b.close == price
    && b.tsOpen == ts && b.tsClose == ts && b.synthetic == synthetic
  }

  lemma {:induction false} SlotAhead(n: int, k: nat, m: nat)
    requires m > 0 && k < m
    ensures Slot(n + k, m) == if Slot(n, m) + k < m then Slot(n, m) + k else Slot(n, m) + k - m
  {
    if n % m + k < m {
      DivisionIs(n + k, m, n / m, n % m + k);
    } else {
      assert (n / m + 1) * m == (n / m) * m + m;
      DivisionIs(n + k, m, n / m + 1, n % m + k - m);
    }
  }

  lemma {:induction false} WrapOnce(r: nat, m: nat)
    requires r < m
    ensures (r + 1) % m == if r + 1 >= m then 0 else r + 1
  {
    if r + 1 < m {
      DivisionIs(r + 1, m, 0, r + 1);
    } else {
      DivisionIs(r + 1, m, 1, 0);
    }
  }
}
