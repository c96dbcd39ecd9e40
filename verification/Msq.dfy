/**
 The market-sizing walk: buy down the ask side, level by level, within a budget that also pays the
 taker fee, all in floor-divided fixed point; the last level is filled by a binary search.

 The survival tables that thin out displayed quantities come from an exponential; they are parameters
 here, known only by their bounds.
 */
module Msq {
  import opened Options
  import opened Modulo
  import opened Levels
  import opened BookSides
  import opened NdOrderBooks

  const FEE_NUMERATOR: int := 45
  const FEE_DENOMINATOR: int := 100_000

  datatype Tables = Tables(ctr: seq<nat>, lambda: seq<nat>, lut: seq<nat>) {
    /* Scaled by 1024: at most 1; every lambda is an index into the lookup table. */
    ghost predicate Bounded(n: nat) {
      && n <= |ctr| && n <= |lambda|
      && (forall i :: 0 <= i < |ctr| ==> ctr[i] <= 1024)
      && (forall i :: 0 <= i < |lambda| ==> lambda[i] < |lut|)
      && (forall i :: 0 <= i < |lut| ==> lut[i] <= 1024)
    }
  }

  /* A level as the walk sees it: what is displayed and what is expected to survive. */
  datatype Offer = Offer(price: int, displayed: int, qty: int)

  function Surviving(displayed: int, ctr: nat, decay: nat): int {
    if displayed <= 0 then 0 else (displayed * (1024 - ctr) * decay) / 1_048_576
  }

  function OfferAt(l: Level, t: Tables, i: nat): Offer
    requires i < |t.ctr| && i < |t.lambda| && t.lambda[i] < |t.lut|
  {
    Offer(l.key, l.qty, Surviving(l.qty, t.ctr[i], t.lut[t.lambda[i]]))
  }

  function Offers(asks: seq<Level>, t: Tables): (os: seq<Offer>)
    requires t.Bounded(|asks|)
    ensures |os| == |asks|
    ensures forall i :: 0 <= i < |asks| ==> os[i] == OfferAt(asks[i], t, i)
  {
    seq(|asks|, i requires 0 <= i < |asks| => OfferAt(asks[i], t, i))
  }

  /** Notional plus taker fee of buying `qty` at `price`. */
  function Cost(price: int, qty: int): int {
    Notional(price, qty) + (Notional(price, qty) * FEE_NUMERATOR) / FEE_DENOMINATOR
  }

  ghost predicate LargestAffordable(price: int, available: int, budget: int, m: int) {
    && 0 <= m <= available
    && Cost(price, m) <= budget
    && forall k :: m < k <= available ==> Cost(price, k) > budget
  }

  function Affordable(price: int, available: nat, budget: int): (m: nat)
    ensures m <= available
  {
    if available == 0 || Cost(price, available) <= budget then available
    else Affordable(price, available - 1, budget)
  }

  function Nothing(n: nat): (takes: seq<int>)
    ensures |takes| == n && forall i :: 0 <= i < n ==> takes[i] == 0
  {
    seq(n, _ => 0)
  }

  /** The quantity the walk takes at each offer. */
  function Takes(os: seq<Offer>, budget: int): (takes: seq<int>)
    ensures |takes| == |os|
    decreases |os|
  {
    if os == [] || budget <= 0 then Nothing(|os|)
    else if os[0].qty <= 0 then [0] + Takes(os[1..], budget)
    else
      var cost := Cost(os[0].price, os[0].qty);
      if cost <= budget then [os[0].qty] + Takes(os[1..], budget - cost)
      else [Affordable(os[0].price, os[0].qty, budget)] + Nothing(|os| - 1)
  }

  function TotalQty(takes: seq<int>): int {
    if takes == [] then 0 else takes[0] + TotalQty(takes[1..])
  }

  function TotalNotional(os: seq<Offer>, takes: seq<int>): int
    requires |os| == |takes|
  {
    if os == [] then 0 else Notional(os[0].price, takes[0]) + TotalNotional(os[1..], takes[1..])
  }

  function TotalCost(os: seq<Offer>, takes: seq<int>): int
    requires |os| == |takes|
  {
    if os == [] then 0 else Cost(os[0].price, takes[0]) + TotalCost(os[1..], takes[1..])
  }

  /* ---- arithmetic of the cost ---- */

  lemma {:induction false} CostMonotone(price: int, a: int, b: int)
    requires price >= 0 && a <= b
    ensures Notional(price, a) <= Notional(price, b) && Cost(price, a) <= Cost(price, b)
  {
    assert price * a <= price * b;
    FloorMonotone(price * a, price * b, SCALE);
    FloorMonotone(Notional(price, a) * FEE_NUMERATOR, Notional(price, b) * FEE_NUMERATOR, FEE_DENOMINATOR);
  }

  /* A level that cannot be bought whole has a positive price. */
  lemma {:induction false} ExpensiveMeansPositive(price: int, qty: int, budget: int)
    requires qty > 0 && budget > 0 && Cost(price, qty) > budget
    ensures price > 0
  {
  }

  lemma {:induction false} AffordableIsLargest(price: int, available: nat, budget: int)
    requires price >= 0 && budget >= 0
    ensures LargestAffordable(price, available, budget, Affordable(price, available, budget))
    decreases available
  {
    if available > 0 && Cost(price, available) > budget {
      AffordableIsLargest(price, available - 1, budget);
    } else {
      assert available == 0 ==> Cost(price, available) == 0;
    }
  }

  lemma {:induction false} LargestIsUnique(price: int, available: int, budget: int, m: int, k: int)
    requires LargestAffordable(price, available, budget, m) && LargestAffordable(price, available, budget, k)
    ensures m == k
  {
  }

  /** The inner binary search returns the largest affordable quantity at the level. */
  method SearchAffordable(price: int, available: nat, budget: int) returns (best: nat)
    requires available > 0 && budget > 0 && Cost(price, available) > budget
    ensures LargestAffordable(price, available, budget, best)
    ensures best == Affordable(price, available, budget)
  {
    ExpensiveMeansPositive(price, available, budget);
    var lo, hi := 0, available;
    best := 0;
    assert Cost(price, 0) == 0;
    while lo <= hi
      invariant 0 <= lo <= hi + 1 <= available + 1
      invariant best == (if lo == 0 then 0 else lo - 1)
      invariant Cost(price, best) <= budget
      invariant forall k :: hi < k <= available ==> Cost(price, k) > budget
    {
      var mid := (lo + hi) / 2;
      if Cost(price, mid) <= budget {
        best := mid;
        lo := mid + 1;
      } else {
        forall k | mid <= k <= available
          ensures Cost(price, k) > budget
        {
          CostMonotone(price, mid, k);
        }
        hi := mid - 1;
      }
    }
    assert lo > 0;
    AffordableIsLargest(price, available, budget);
    LargestIsUnique(price, available, budget, best, Affordable(price, available, budget));
  }

  lemma {:induction false} NothingTotals(os: seq<Offer>)
    ensures TotalQty(Nothing(|os|)) == 0 && TotalNotional(os, Nothing(|os|)) == 0 && TotalCost(os, Nothing(|os|)) == 0
    decreases |os|
  {
    if os != [] {
      NothingTotals(os[1..]);
      assert Nothing(|os|)[1..] == Nothing(|os| - 1);
    }
  }

  /* One turn of the walk, in the three ways it can go. */
  lemma {:induction false} SkippedLevel(os: seq<Offer>, budget: int)
    requires os != [] && budget > 0 && os[0].qty <= 0
    ensures var takes, rest := Takes(os, budget), Takes(os[1..], budget);
            && takes == [0] + rest && TotalQty(takes) == TotalQty(rest)
            && TotalNotional(os, takes) == TotalNotional(os[1..], rest)
            && TotalCost(os, takes) == TotalCost(os[1..], rest)
  {
    assert Takes(os, budget)[1..] == Takes(os[1..], budget);
    assert Cost(os[0].price, 0) == 0 && Notional(os[0].price, 0) == 0;
  }

  lemma {:induction false} WholeLevel(os: seq<Offer>, budget: int)
    requires os != [] && budget > 0 && os[0].qty > 0 && Cost(os[0].price, os[0].qty) <= budget
    ensures var o := os[0];
            var takes, rest := Takes(os, budget), Takes(os[1..], budget - Cost(o.price, o.qty));
            && takes == [o.qty] + rest && TotalQty(takes) == o.qty + TotalQty(rest)
            && TotalNotional(os, takes) == Notional(o.price, o.qty) + TotalNotional(os[1..], rest)
            && TotalCost(os, takes) == Cost(o.price, o.qty) + TotalCost(os[1..], rest)
  {
    assert Takes(os, budget)[1..] == Takes(os[1..], budget - Cost(os[0].price, os[0].qty));
  }

  lemma {:induction false} LastLevel(os: seq<Offer>, budget: int)
    requires os != [] && budget > 0 && os[0].qty > 0 && Cost(os[0].price, os[0].qty) > budget
    ensures var o := os[0];
            var takes, best := Takes(os, budget), Affordable(o.price, o.qty, budget);
            && takes == [best] + Nothing(|os| - 1) && TotalQty(takes) == best
            && TotalNotional(os, takes) == Notional(o.price, best)
            && TotalCost(os, takes) == Cost(o.price, best)
  {
    assert Takes(os, budget)[1..] == Nothing(|os| - 1);
    NothingTotals(os[1..]);
  }

  /* What has been bought before level `idx`, and what the rest of the walk still buys, are the whole. */
  ghost predicate OnAccount(os: seq<Offer>, target: int, idx: int, qty: int, notional: int, remaining: int) {
    && 0 <= idx <= |os|
    && var rest, whole := Takes(os[idx..], remaining), Takes(os, target);
       && qty + TotalQty(rest) == TotalQty(whole)
       && notional + TotalNotional(os[idx..], rest) == TotalNotional(os, whole)
       && target - remaining + TotalCost(os[idx..], rest) == TotalCost(os, whole)
  }

  ghost predicate Settled(os: seq<Offer>, target: int, qty: int, notional: int, remaining: int) {
    var takes := Takes(os, target);
    && qty == TotalQty(takes)
    && notional == TotalNotional(os, takes)
    && remaining == target - TotalCost(os, takes)
  }

  lemma {:induction false} TurnSkips(os: seq<Offer>, target: int, idx: nat, qty: int, notional: int, remaining: int)
    requires OnAccount(os, target, idx, qty, notional, remaining) && idx < |os| && remaining > 0 && os[idx].qty <= 0
    ensures OnAccount(os, target, idx + 1, qty, notional, remaining)
  {
    assert os[idx..][1..] == os[idx + 1..];
    SkippedLevel(os[idx..], remaining);
  }

  lemma {:induction false} TurnBuysAll(os: seq<Offer>, target: int, idx: nat, qty: int, notional: int, remaining: int)
    requires OnAccount(os, target, idx, qty, notional, remaining) && idx < |os| && remaining > 0
    requires os[idx].qty > 0 && Cost(os[idx].price, os[idx].qty) <= remaining
    ensures var o := os[idx];
            OnAccount(os, target, idx + 1, qty + o.qty, notional + Notional(o.price, o.qty),
                      remaining - Cost(o.price, o.qty))
  {
    assert os[idx..][1..] == os[idx + 1..];
    WholeLevel(os[idx..], remaining);
  }

  lemma {:induction false} TurnEnds(os: seq<Offer>, target: int, idx: nat, qty: int, notional: int, remaining: int)
    requires OnAccount(os, target, idx, qty, notional, remaining) && idx < |os| && remaining > 0
    requires os[idx].qty > 0 && Cost(os[idx].price, os[idx].qty) > remaining
    ensures var o := os[idx];
            var best := Affordable(o.price, o.qty, remaining);
            Settled(os, target, qty + best, notional + Notional(o.price, best), remaining - Cost(o.price, best))
  {
    LastLevel(os[idx..], remaining);
  }

  lemma {:induction false} NothingLeftToBuy(os: seq<Offer>, target: int, idx: nat, qty: int, notional: int,
                                            remaining: int)
    requires OnAccount(os, target, idx, qty, notional, remaining) && (idx == |os| || remaining <= 0)
    ensures Settled(os, target, qty, notional, remaining)
  {
    NothingTotals(os[idx..]);
  }

  /** The walk itself, over the live arrays of the ask side. */
  method Walk(side: BookSide, t: Tables, target: int) returns (qty: int, notional: int, remaining: int)
    requires side.Valid() && t.Bounded(|side.Contents()|) && target > 0
    ensures Settled(Offers(side.Contents(), t), target, qty, notional, remaining)
  {
    ghost var os := Offers(side.Contents(), t);
    remaining, qty, notional := target, 0, 0;
    var idx := 0;
    assert os[0..] == os;
    while idx < side.n && remaining > 0
      invariant 0 <= idx <= side.n && OnAccount(os, target, idx, qty, notional, remaining)
    {
      assert os[idx] == OfferAt(side.Contents()[idx], t, idx);
      assert side.Contents()[idx] == Level(side.keys[idx], side.qtys[idx]);
      var price := side.keys[idx];
      var q := Surviving(side.qtys[idx], t.ctr[idx], t.lut[t.lambda[idx]]);
      if q <= 0 {
        TurnSkips(os, target, idx, qty, notional, remaining);
        idx := idx + 1;
        continue;
      }
      var pay := Cost(price, q);
      if pay <= remaining {
        TurnBuysAll(os, target, idx, qty, notional, remaining);
        remaining, qty, notional := remaining - pay, qty + q, notional + Notional(price, q);
        idx := idx + 1;
        continue;
      }
      qty, notional, remaining := BuyPart(os, target, idx, price, q, qty, notional, remaining);
      return;
    }
    NothingLeftToBuy(os, target, idx, qty, notional, remaining);
  }

  /** The last level of the walk, of which only a part is affordable. */
  method BuyPart(ghost os: seq<Offer>, ghost target: int, ghost idx: nat, price: int, q: nat,
                 qty: int, notional: int, remaining: int) returns (qty': int, notional': int, remaining': int)
    requires OnAccount(os, target, idx, qty, notional, remaining) && idx < |os| && remaining > 0
    requires os[idx].price == price && os[idx].qty == q > 0 && Cost(price, q) > remaining
    ensures Settled(os, target, qty', notional', remaining')
  {
    qty', notional', remaining' := qty, notional, remaining;
    TurnEnds(os, target, idx, qty, notional, remaining);
    NothingCosts(price);
    var best := SearchAffordable(price, q, remaining);
    if best > 0 {
      qty', notional', remaining' := qty + best, notional + Notional(price, best), remaining - Cost(price, best);
    }
  }

  lemma {:induction false} NothingCosts(price: int)
    ensures Notional(price, 0) == 0 && Cost(price, 0) == 0
  {
  }

  /** `calculate_msq`: total quantity and average price, or nothing when the book must not be traded. */
  method CalculateMsq(book: NdOrderBook, t: Tables, target: int) returns (r: Option<(int, int)>)
    requires book.Valid() && t.Bounded(|book.State().asks|)
    ensures r == MsqResult(book.State(), t, target)
  {
    if !book.ok || target <= 0 || book.askSide.n <= 0 {
      return None;
    }
    var qty, notional, _ := Walk(book.askSide, t, target);
    if qty <= 0 {
      return None;
    }
    return Some((qty, (notional * SCALE) / qty));
  }

  function MsqResult(b: Book, t: Tables, target: int): Option<(int, int)>
    requires t.Bounded(|b.asks|)
  {
    if !b.ok || target <= 0 || b.asks == [] then None
    else
      var os := Offers(b.asks, t);
      var takes := Takes(os, target);
      if TotalQty(takes) <= 0 then None
      else Some((TotalQty(takes), (TotalNotional(os, takes) * SCALE) / TotalQty(takes)))
  }

  lemma {:induction false} TotalIsPositive(takes: seq<int>)
    requires forall i :: 0 <= i < |takes| ==> takes[i] >= 0
    ensures TotalQty(takes) >= 0
    ensures TotalQty(takes) > 0 <==> exists i :: 0 <= i < |takes| && takes[i] > 0
    decreases |takes|
  {
    if takes != [] {
      TotalIsPositive(takes[1..]);
      assert forall i :: 0 < i < |takes| ==> takes[i] == takes[1..][i - 1];
      assert forall i :: 0 <= i < |takes| - 1 ==> takes[1..][i] == takes[i + 1];
    }
  }

  lemma {:induction false} TakesAreNotNegative(os: seq<Offer>, budget: int)
    ensures forall i :: 0 <= i < |os| ==> Takes(os, budget)[i] >= 0
    decreases |os|
  {
    if os != [] && budget > 0 {
      TakesAreNotNegative(os[1..], budget);
      TakesAreNotNegative(os[1..], budget - Cost(os[0].price, os[0].qty));
    }
  }

  /**
   A size is reported exactly by a usable book where something can be bought at all; it is everything the walk
   takes, at the average of what that costs without the fee, rounded down.
   */
  lemma {:induction false} MsqIsWhatTheWalkTakes(b: Book, t: Tables, target: int)
    requires t.Bounded(|b.asks|)
    ensures var os := Offers(b.asks, t);
            var takes, r := Takes(os, target), MsqResult(b, t, target);
            && (r.Some? <==> b.ok && exists i :: 0 <= i < |takes| && takes[i] > 0)
            && (r.Some? ==> r.value.0 == TotalQty(takes) > 0
                            && r.value.1 * r.value.0 <= 100_000_000 * TotalNotional(os, takes)
                               < (r.value.1 + 1) * r.value.0)
  {
    var os := Offers(b.asks, t);
    var takes := Takes(os, target);
    TakesAreNotNegative(os, target);
    TotalIsPositive(takes);
    GuardsTakeNothing(b, t, target);
    if TotalQty(takes) > 0 {
      AverageRoundsDown(100_000_000 * TotalNotional(os, takes), TotalQty(takes));
    }
  }

  /* The guards only spare the walk what would take nothing. */
  lemma {:induction false} GuardsTakeNothing(b: Book, t: Tables, target: int)
    requires t.Bounded(|b.asks|)
    ensures MsqResult(b, t, target).Some? <==> b.ok && TotalQty(Takes(Offers(b.asks, t), target)) > 0
  {
    var os := Offers(b.asks, t);
    if target <= 0 || b.asks == [] {
      NothingTotals(os);
      assert Takes(os, target) == Nothing(|os|);
    }
  }

  lemma {:induction false} AverageRoundsDown(n: int, d: int)
    requires d > 0
    ensures (n / d) * d <= n < (n / d + 1) * d
  {
    assert n == (n / d) * d + n % d;
    assert (n / d + 1) * d == (n / d) * d + d;
  }

  /* ---- what the walk guarantees ---- */

  lemma {:induction false} ProductWithin(a: nat, b: nat, bound: nat)
    requires b <= bound
    ensures 0 <= a * b <= a * bound
  {
  }

  /** The fee is 45 parts in 100,000 of the notional, both rounded down at the eighth decimal. */
  lemma {:induction false} CostIsNotionalAndFee(price: int, qty: int)
    ensures 100_000_000 * Notional(price, qty) <= price * qty < 100_000_000 * (Notional(price, qty) + 1)
    ensures var fee := Cost(price, qty) - Notional(price, qty);
            100_000 * fee <= 45 * Notional(price, qty) < 100_000 * (fee + 1)
  {
  }

  /**
   What survives of a level is its displayed quantity times the two factors in 1024ths, rounded down: all of
   it without decay, none of it where a factor vanishes.
   */
  lemma {:induction false} SurvivingIsShare(displayed: int, ctr: nat, decay: nat)
    ensures displayed > 0 ==>
            var part, left := displayed * (1024 - ctr) * decay, Surviving(displayed, ctr, decay);
            1024 * 1024 * left <= part < 1024 * 1024 * (left + 1)
    ensures displayed >= 0 ==> Surviving(displayed, 0, 1024) == displayed
    ensures Surviving(displayed, 1024, decay) == 0 && Surviving(displayed, ctr, 0) == 0
    ensures displayed <= 0 ==> Surviving(displayed, ctr, decay) == 0
  {
    if displayed > 0 {
      DivisionIs(displayed * (1024 - 0) * 1024, 1_048_576, displayed, 0);
    }
  }

  /** It falls in the first factor and rises in the second. */
  lemma {:induction false} SurvivingIsMonotone(displayed: int, ctr: nat, ctr': nat, decay: nat, decay': nat)
    requires ctr <= ctr' <= 1024 && decay' <= decay
    ensures Surviving(displayed, ctr', decay') <= Surviving(displayed, ctr, decay)
  {
    if displayed > 0 {
      var x, x' := displayed * (1024 - ctr), displayed * (1024 - ctr');
      SmallerProduct(displayed, 1024 - ctr', 1024 - ctr);
      SmallerProduct(x, decay', decay);
      SmallerFactor(x', x, decay');
      FloorMonotone(x' * decay', x * decay, 1_048_576);
    }
  }

  lemma {:induction false} SmallerProduct(a: int, b: int, c: int)
    requires 0 <= a && 0 <= b <= c
    ensures 0 <= a * b <= a * c
  {
  }

  lemma {:induction false} SmallerFactor(a: int, b: int, c: int)
    requires a <= b && 0 <= c
    ensures a * c <= b * c
  {
  }

  /** Every ask becomes an offer at its price, thinned out by the factors of its own position. */
  lemma {:induction false} OffersAreAsks(asks: seq<Level>, t: Tables, i: nat)
    requires t.Bounded(|asks|) && i < |asks|
    ensures var o := Offers(asks, t)[i];
            && o.price == asks[i].key && o.displayed == asks[i].qty
            && (asks[i].qty > 0 ==>
                  var part := asks[i].qty * (1024 - t.ctr[i]) * t.lut[t.lambda[i]];
                  1024 * 1024 * o.qty <= part < 1024 * 1024 * (o.qty + 1))
  {
    SurvivingIsShare(asks[i].qty, t.ctr[i], t.lut[t.lambda[i]]);
  }

  /** Thinning out never shows more than is displayed. */
  lemma {:induction false} SurvivingIsBounded(displayed: int, ctr: nat, decay: nat)
    requires ctr <= 1024 && decay <= 1024
    ensures 0 <= Surviving(displayed, ctr, decay)
    ensures displayed > 0 ==> Surviving(displayed, ctr, decay) <= displayed
  {
    if displayed > 0 {
      var kept := (1024 - ctr) * decay;
      ProductWithin(1024 - ctr, decay, 1024);
      assert (1024 - ctr) * 1024 <= 1_048_576;
      ProductWithin(displayed, kept, 1_048_576);
      assert displayed * (1024 - ctr) * decay == displayed * kept;
      FloorMonotone(0, displayed * kept, 1_048_576);
      FloorMonotone(displayed * kept, displayed * 1_048_576, 1_048_576);
    }
  }

  /** Notional plus fees never exceed the target, and no level gives more than survives there. */
  lemma {:induction false} WithinBudgetAndDepth(os: seq<Offer>, budget: int)
    requires budget >= 0
    ensures var takes := Takes(os, budget);
            && TotalCost(os, takes) <= budget
            && forall i :: 0 <= i < |os| ==> 0 <= takes[i] && (takes[i] > 0 ==> takes[i] <= os[i].qty)
    decreases |os|
  {
    if os == [] || budget <= 0 {
      NothingTotals(os);
    } else if os[0].qty <= 0 {
      WithinBudgetAndDepth(os[1..], budget);
      SkippedLevel(os, budget);
    } else if Cost(os[0].price, os[0].qty) <= budget {
      WithinBudgetAndDepth(os[1..], budget - Cost(os[0].price, os[0].qty));
      WholeLevel(os, budget);
    } else {
      ExpensiveMeansPositive(os[0].price, os[0].qty, budget);
      AffordableIsLargest(os[0].price, os[0].qty, budget);
      LastLevel(os, budget);
    }
  }

  /* The walk took whole levels before `k`, nothing after `k`, and could not buy one more unit at `k`. */
  ghost predicate StoppedAt(os: seq<Offer>, takes: seq<int>, budget: int, k: int) {
    && |takes| == |os| && 0 <= k < |os|
    && (forall i :: 0 <= i < k ==> takes[i] == Whole(os[i]))
    && (forall i :: k < i < |os| ==> takes[i] == 0)
    && takes[k] < os[k].qty
    && budget - TotalCost(os, takes) + Cost(os[k].price, takes[k]) < Cost(os[k].price, takes[k] + 1)
  }

  function Whole(o: Offer): int {
    if o.qty <= 0 then 0 else o.qty
  }

  ghost predicate TookEverything(os: seq<Offer>, takes: seq<int>) {
    |takes| == |os| && forall i :: 0 <= i < |os| ==> takes[i] == Whole(os[i])
  }

  /** The walk ends only with the book exhausted, the budget spent to the last unit, or one more unit unaffordable. */
  lemma {:induction false} StopsOnlyWhenItMust(os: seq<Offer>, budget: int)
    requires budget >= 0
    ensures var takes := Takes(os, budget);
            || TookEverything(os, takes)
            || TotalCost(os, takes) == budget
            || exists k :: StoppedAt(os, takes, budget, k)
    decreases |os|
  {
    var takes := Takes(os, budget);
    if os == [] || budget <= 0 {
      NothingTotals(os);
    } else if os[0].qty > 0 && Cost(os[0].price, os[0].qty) > budget {
      ExpensiveMeansPositive(os[0].price, os[0].qty, budget);
      AffordableIsLargest(os[0].price, os[0].qty, budget);
      NothingTotals(os[1..]);
      assert takes[1..] == Nothing(|os| - 1);
      assert StoppedAt(os, takes, budget, 0);
    } else {
      var left := budget - Cost(os[0].price, Whole(os[0]));
      assert Cost(os[0].price, 0) == 0;
      StopsOnlyWhenItMust(os[1..], left);
      assert takes[1..] == Takes(os[1..], left);
      if k :| StoppedAt(os[1..], takes[1..], left, k) {
        StoppedShifts(os, takes, budget, left, k);
      }
    }
  }

  lemma {:induction false} StoppedShifts(os: seq<Offer>, takes: seq<int>, budget: int, left: int, k: int)
    requires os != [] && |takes| == |os| && StoppedAt(os[1..], takes[1..], left, k)
    requires takes[0] == Whole(os[0]) && left == budget - Cost(os[0].price, takes[0])
    ensures StoppedAt(os, takes, budget, k + 1)
  {
    assert os[1..][k] == os[k + 1] && takes[1..][k] == takes[k + 1];
    forall i | 0 <= i < k + 1
      ensures takes[i] == Whole(os[i])
    {
      assert i > 0 ==> takes[i] == takes[1..][i - 1] && os[i] == os[1..][i - 1];
    }
    forall i | k + 1 < i < |os|
      ensures takes[i] == 0
    {
      assert takes[i] == takes[1..][i - 1];
    }
  }

  /** A larger target takes at least as much at every single level. */
  lemma {:induction false} MonotoneInTarget(os: seq<Offer>, budget: int, larger: int)
    requires 0 <= budget <= larger
    ensures forall i :: 0 <= i < |os| ==> Takes(os, budget)[i] <= Takes(os, larger)[i]
    decreases |os|
  {
    WithinBudgetAndDepth(os, larger);
    if os == [] || budget <= 0 {
    } else if os[0].qty <= 0 {
      MonotoneInTarget(os[1..], budget, larger);
    } else if Cost(os[0].price, os[0].qty) <= budget {
      var cost := Cost(os[0].price, os[0].qty);
      MonotoneInTarget(os[1..], budget - cost, larger - cost);
    } else {
      ExpensiveMeansPositive(os[0].price, os[0].qty, budget);
      AffordableIsLargest(os[0].price, os[0].qty, budget);
      AffordableIsLargest(os[0].price, os[0].qty, larger);
    }
  }

  /** Read off the book: a larger target never buys less in total. */
  lemma {:induction false} TotalMonotoneInTarget(os: seq<Offer>, budget: int, larger: int)
    requires 0 <= budget <= larger
    ensures TotalQty(Takes(os, budget)) <= TotalQty(Takes(os, larger))
  {
    MonotoneInTarget(os, budget, larger);
    TotalQtyMonotone(Takes(os, budget), Takes(os, larger));
  }

  /** Read off the book: what is taken at a level never exceeds the quantity displayed there. */
  lemma {:induction false} NeverMoreThanDisplayed(asks: seq<Level>, t: Tables, budget: int, i: nat)
    requires t.Bounded(|asks|) && budget >= 0 && i < |asks|
    ensures var take := Takes(Offers(asks, t), budget)[i];
            0 <= take && (take > 0 ==> take <= asks[i].qty)
  {
    WithinBudgetAndDepth(Offers(asks, t), budget);
    SurvivingIsBounded(asks[i].qty, t.ctr[i], t.lut[t.lambda[i]]);
  }

  lemma {:induction false} TotalQtyMonotone(a: seq<int>, b: seq<int>)
    requires |a| == |b| && forall i :: 0 <= i < |a| ==> a[i] <= b[i]
    ensures TotalQty(a) <= TotalQty(b)
    decreases |a|
  {
    if a != [] {
      TotalQtyMonotone(a[1..], b[1..]);
    }
  }

  /* ---- the average price ---- */

  function Touched(takes: seq<int>): nat {
    if takes == [] then 0 else (if takes[0] > 0 then 1 else 0) + Touched(takes[1..])
  }

  ghost predicate TouchedWithin(os: seq<Offer>, takes: seq<int>, lo: int, hi: int)
    requires |os| == |takes|
  {
    forall i :: 0 <= i < |os| && takes[i] > 0 ==> lo <= os[i].price <= hi
  }

  /** Each touched level loses less than one unit of notional to the floor division. */
  lemma {:induction false} NotionalBounds(os: seq<Offer>, takes: seq<int>, lo: int, hi: int)
    requires |os| == |takes| && TouchedWithin(os, takes, lo, hi)
    requires forall i :: 0 <= i < |takes| ==> takes[i] >= 0
    ensures TotalNotional(os, takes) * SCALE <= hi * TotalQty(takes)
    ensures lo * TotalQty(takes) <= TotalNotional(os, takes) * SCALE + Touched(takes) * (SCALE - 1)
    ensures TotalQty(takes) >= 0
    decreases |os|
  {
    if os != [] {
      NotionalBounds(os[1..], takes[1..], lo, hi);
      if takes[0] > 0 {
        OneLevelBounds(os[0].price, takes[0], lo, hi);
      } else {
        NothingCosts(os[0].price);
      }
      BoundsAdd(Notional(os[0].price, takes[0]), takes[0], if takes[0] > 0 then 1 else 0,
                TotalNotional(os[1..], takes[1..]), TotalQty(takes[1..]), Touched(takes[1..]), lo, hi);
    }
  }

  /* The bounds of two parts are the bounds of the whole. */
  lemma {:induction false} BoundsAdd(n: int, q: int, t: int, n': int, q': int, t': int, lo: int, hi: int)
    requires n * SCALE <= hi * q && lo * q <= n * SCALE + t * (SCALE - 1)
    requires n' * SCALE <= hi * q' && lo * q' <= n' * SCALE + t' * (SCALE - 1)
    ensures (n + n') * SCALE <= hi * (q + q')
    ensures lo * (q + q') <= (n + n') * SCALE + (t + t') * (SCALE - 1)
  {
    assert hi * (q + q') == hi * q + hi * q';
    assert lo * (q + q') == lo * q + lo * q';
  }

  lemma {:induction false} OneLevelBounds(price: int, q: int, lo: int, hi: int)
    requires q > 0 && lo <= price <= hi
    ensures Notional(price, q) * SCALE <= hi * q
    ensures lo * q <= Notional(price, q) * SCALE + (SCALE - 1)
  {
    assert lo * q <= price * q <= hi * q;
  }

  /**
   The reported average price never exceeds the worst touched price, and falls short of the best
   touched price by less than `k * SCALE / qty + 1` for `k` touched levels.
   */
  lemma {:induction false} AveragePriceBounds(b: Book, t: Tables, target: int, lo: int, hi: int)
    requires t.Bounded(|b.asks|) && MsqResult(b, t, target).Some?
    requires TouchedWithin(Offers(b.asks, t), Takes(Offers(b.asks, t), target), lo, hi)
    ensures var r := MsqResult(b, t, target).value;
            var k := Touched(Takes(Offers(b.asks, t), target));
            r.1 <= hi && (lo - r.1 - 1) * r.0 < k * SCALE
  {
    var os := Offers(b.asks, t);
    var takes := Takes(os, target);
    WithinBudgetAndDepth(os, target);
    NotionalBounds(os, takes, lo, hi);
    var q, worth := TotalQty(takes), TotalNotional(os, takes) * SCALE;
    var avg := worth / q;
    QuotientBounds(worth, q, avg, hi);
    assert lo * q <= worth + Touched(takes) * (SCALE - 1);
    assert worth < (avg + 1) * q;
    assert (lo - avg - 1) * q == lo * q - (avg + 1) * q;
    assert Touched(takes) * (SCALE - 1) == Touched(takes) * SCALE - Touched(takes);
  }

  lemma {:induction false} QuotientBounds(worth: int, q: int, avg: int, hi: int)
    requires q > 0 && avg == worth / q && worth <= hi * q
    ensures avg <= hi && worth < (avg + 1) * q
  {
    assert worth == q * avg + worth % q;
    assert (hi + 1) * q == hi * q + q;
    QuotientAtLeast(worth, q, hi + 1);
  }
}
