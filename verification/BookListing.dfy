/**
 What the level-2 book shows in terms of prices: each side lists the quotes it was given, best price first,
 and the depth query adds up the money quoted around the middle of the two best prices.
 */
module BookListings {
  import opened Options
  import opened Sums
  import opened Levels
  import opened BookSides
  import opened DeltaRings
  import opened NdOrderBooks
  import opened BookTheorems

  /* ---- quotes as a map from price to quantity ---- */

  function Requoted(m: map<int, int>, q: Quote): map<int, int> {
    if q.qty <= 0 then m - {q.price} else m[q.price := q.qty]
  }

  function RequotedAll(m: map<int, int>, qs: seq<Quote>): map<int, int>
    decreases |qs|
  {
    if qs == [] then m else RequotedAll(Requoted(m, qs[0]), qs[1..])
  }

  function BidQuotes(ds: seq<Delta>): seq<Quote> {
    if ds == [] then [] else ds[0].bids + BidQuotes(ds[1..])
  }

  function AskQuotes(ds: seq<Delta>): seq<Quote> {
    if ds == [] then [] else ds[0].asks + AskQuotes(ds[1..])
  }

  ghost predicate DistinctPrices(qs: seq<Quote>) {
    forall i, j :: 0 <= i < j < |qs| ==> qs[i].price != qs[j].price
  }

  function Standing(qs: seq<Quote>): nat {
    if qs == [] then 0 else (if qs[0].qty > 0 then 1 else 0) + Standing(qs[1..])
  }

  /* No quote ever brings the side over its capacity. */
  ghost predicate StaysWithin(m: map<int, int>, qs: seq<Quote>, cap: nat)
    decreases |qs|
  {
    qs == [] || (|Requoted(m, qs[0])| <= cap && StaysWithin(Requoted(m, qs[0]), qs[1..], cap))
  }

  /* A snapshot side of distinct prices that fits, and later quotes that fit as well. */
  ghost predicate Fitting(snapshot: seq<Quote>, later: seq<Quote>, cap: nat) {
    DistinctPrices(snapshot) && Standing(snapshot) <= cap && StaysWithin(RequotedAll(map[], snapshot), later, cap)
  }

  /* The price a level stands for: a bid is kept under minus its price. */
  function PriceOf(bid: bool, l: Level): int {
    if bid then -l.key else l.key
  }

  /* The levels are exactly the entries of the map, bids from the highest price down, asks from the lowest up. */
  ghost predicate Lists(bid: bool, s: seq<Level>, m: map<int, int>) {
    && Ranked(bid, s)
    && (forall i :: 0 <= i < |s| ==> PriceOf(bid, s[i]) in m && m[PriceOf(bid, s[i])] == s[i].qty)
    && (forall p :: p in m ==> ListedAt(bid, s, p, m[p]))
  }

  ghost predicate Ranked(bid: bool, s: seq<Level>) {
    forall i, j :: 0 <= i < j < |s| ==>
      if bid then PriceOf(bid, s[i]) > PriceOf(bid, s[j]) else PriceOf(bid, s[i]) < PriceOf(bid, s[j])
  }

  ghost predicate ListedAt(bid: bool, s: seq<Level>, price: int, qty: int) {
    exists i :: 0 <= i < |s| && PriceOf(bid, s[i]) == price && s[i].qty == qty
  }

  /* ---- keys and prices ---- */

  function KeyOf(bid: bool, price: int): int {
    if bid then -price else price
  }

  function Keyed(bid: bool, qs: seq<Quote>): (rows: seq<Row>)
    ensures |rows| == |qs| && forall i :: 0 <= i < |qs| ==> rows[i] == Row(KeyOf(bid, qs[i].price), qs[i].qty)
  {
    seq(|qs|, i requires 0 <= i < |qs| => Row(KeyOf(bid, qs[i].price), qs[i].qty))
  }

  lemma {:induction false} SidesAreKeyed(qs: seq<Quote>)
    ensures BidRows(qs) == Keyed(true, qs) && AskRows(qs) == Keyed(false, qs)
  {
  }

  lemma {:induction false} KeyedConcat(bid: bool, a: seq<Quote>, b: seq<Quote>)
    ensures Keyed(bid, a + b) == Keyed(bid, a) + Keyed(bid, b)
  {
  }

  lemma {:induction false} FeedsAreKeyed(ds: seq<Delta>)
    ensures AllBidRows(ds) == Keyed(true, BidQuotes(ds)) && AllAskRows(ds) == Keyed(false, AskQuotes(ds))
    decreases |ds|
  {
    if ds != [] {
      FeedsAreKeyed(ds[1..]);
      SidesAreKeyed(ds[0].bids);
      SidesAreKeyed(ds[0].asks);
      KeyedConcat(true, ds[0].bids, BidQuotes(ds[1..]));
      KeyedConcat(false, ds[0].asks, AskQuotes(ds[1..]));
    }
  }

  /* The same entries under keys and under prices. */
  ghost predicate Mirrors(bid: bool, d: Depth, m: map<int, int>) {
    && (forall p {:trigger m[p]} :: p in m ==> KeyOf(bid, p) in d && d[KeyOf(bid, p)] == m[p])
    && (forall k {:trigger d[k]} :: k in d ==> KeyOf(bid, k) in m)
  }

  lemma {:induction false} MirrorRow(bid: bool, d: Depth, m: map<int, int>, q: Quote)
    requires Mirrors(bid, d, m)
    ensures Mirrors(bid, MapRow(d, Row(KeyOf(bid, q.price), q.qty)), Requoted(m, q))
  {
    var e, n := MapRow(d, Row(KeyOf(bid, q.price), q.qty)), Requoted(m, q);
    forall p | p in n
      ensures KeyOf(bid, p) in e && e[KeyOf(bid, p)] == n[p]
    {
      if p != q.price {
        assert n[p] == m[p];
      }
    }
    forall k | k in e
      ensures KeyOf(bid, k) in n
    {
      if k != KeyOf(bid, q.price) {
        assert e[k] == d[k];
      }
    }
  }

  lemma {:induction false} KeyedTail(bid: bool, qs: seq<Quote>)
    requires qs != []
    ensures Keyed(bid, qs)[0] == Row(KeyOf(bid, qs[0].price), qs[0].qty)
    ensures Keyed(bid, qs)[1..] == Keyed(bid, qs[1..])
  {
  }

  lemma {:induction false} MirrorRows(bid: bool, d: Depth, m: map<int, int>, qs: seq<Quote>)
    requires Mirrors(bid, d, m)
    ensures Mirrors(bid, MapRows(d, Keyed(bid, qs)), RequotedAll(m, qs))
    decreases |qs|
  {
    if qs != [] {
      KeyedTail(bid, qs);
      MirrorRow(bid, d, m, qs[0]);
      MirrorRows(bid, MapRow(d, Keyed(bid, qs)[0]), Requoted(m, qs[0]), qs[1..]);
    }
  }

  lemma {:induction false} MirrorWithout(bid: bool, d: Depth, m: map<int, int>, p: int)
    requires Mirrors(bid, d, m) && p in m
    ensures KeyOf(bid, p) in d && Mirrors(bid, d - {KeyOf(bid, p)}, m - {p})
  {
    assert m[p] == m[p];
    MirrorRow(bid, d, m, Quote(p, 0));
  }

  lemma {:induction false} SmallerMap(m: map<int, int>, p: int)
    requires p in m
    ensures |m - {p}| == |m| - 1
  {
    assert (m - {p}).Keys == m.Keys - {p};
    assert |m - {p}| == |(m - {p}).Keys| && |m| == |m.Keys|;
  }

  lemma {:induction false} MirrorBack(bid: bool, d: Depth, m: map<int, int>, k: int)
    requires Mirrors(bid, d, m) && k in d
    ensures KeyOf(bid, k) in m
  {
    assert d[k] == d[k];
  }

  lemma {:induction false} Nothing(m: map<int, int>)
    requires forall p :: p !in m
    ensures |m| == 0
  {
    forall p
      ensures p in m.Keys <==> p in {}
    {
      assert p !in m;
    }
    assert |m.Keys| == |m|;
  }

  lemma {:induction false} MirrorSize(bid: bool, d: Depth, m: map<int, int>)
    requires Mirrors(bid, d, m)
    ensures |d| == |m|
    decreases |m|
  {
    if p :| p in m {
      MirrorWithout(bid, d, m, p);
      SmallerMap(m, p);
      SmallerMap(d, KeyOf(bid, p));
      MirrorSize(bid, d - {KeyOf(bid, p)}, m - {p});
    } else if k :| k in d {
      MirrorBack(bid, d, m, k);
      assert false;
    } else {
      Nothing(m);
      Nothing(d);
    }
  }

  lemma {:induction false} MirrorFits(bid: bool, d: Depth, m: map<int, int>, qs: seq<Quote>, cap: nat)
    requires Mirrors(bid, d, m) && StaysWithin(m, qs, cap)
    ensures Fits(d, Keyed(bid, qs), cap)
    decreases |qs|
  {
    if qs != [] {
      KeyedTail(bid, qs);
      MirrorRow(bid, d, m, qs[0]);
      var d1, m1 := MapRow(d, Keyed(bid, qs)[0]), Requoted(m, qs[0]);
      MirrorSize(bid, d1, m1);
      MirrorFits(bid, d1, m1, qs[1..], cap);
    }
  }

  lemma {:induction false} StandingAreQuoted(bid: bool, qs: seq<Quote>)
    ensures Quoted(Keyed(bid, qs)) == Standing(qs)
    decreases |qs|
  {
    if qs != [] {
      assert Keyed(bid, qs)[1..] == Keyed(bid, qs[1..]);
      StandingAreQuoted(bid, qs[1..]);
    }
  }

  lemma {:induction false} FittingSideFits(bid: bool, snapshot: seq<Quote>, later: seq<Quote>, cap: nat)
    requires Fitting(snapshot, later, cap)
    ensures SideFits(Keyed(bid, snapshot), Keyed(bid, later), cap)
  {
    StandingAreQuoted(bid, snapshot);
    assert Mirrors(bid, map[], map[]);
    MirrorRows(bid, map[], map[], snapshot);
    MirrorFits(bid, MapRows(map[], Keyed(bid, snapshot)), RequotedAll(map[], snapshot), later, cap);
  }

  lemma {:induction false} LevelIsEntry(bid: bool, s: seq<Level>, d: Depth, m: map<int, int>, i: nat)
    requires Represents(s, d) && Mirrors(bid, d, m) && i < |s|
    ensures PriceOf(bid, s[i]) in m && m[PriceOf(bid, s[i])] == s[i].qty
  {
    var k, p := s[i].key, PriceOf(bid, s[i]);
    assert d[k] == s[i].qty && KeyOf(bid, k) == p && p in m;
    assert KeyOf(bid, p) == k && m[p] == d[k];
  }

  lemma {:induction false} EntryIsListed(bid: bool, s: seq<Level>, d: Depth, m: map<int, int>, p: int)
    requires Represents(s, d) && Mirrors(bid, d, m) && p in m
    ensures ListedAt(bid, s, p, m[p])
  {
    var k := KeyOf(bid, p);
    assert d[k] == m[p] && Quotes(s, k, d[k]);
    var i :| 0 <= i < |s| && s[i] == Level(k, d[k]);
    assert PriceOf(bid, s[i]) == p;
  }

  lemma {:induction false} RepresentedIsListed(bid: bool, s: seq<Level>, d: Depth, m: map<int, int>)
    requires StrictlyOrdered(s) && Represents(s, d) && Mirrors(bid, d, m)
    ensures Lists(bid, s, m)
  {
    forall i | 0 <= i < |s|
      ensures PriceOf(bid, s[i]) in m && m[PriceOf(bid, s[i])] == s[i].qty
    {
      LevelIsEntry(bid, s, d, m, i);
    }
    forall p | p in m
      ensures ListedAt(bid, s, p, m[p])
    {
      EntryIsListed(bid, s, d, m, p);
    }
    BestFirst(bid, s);
  }

  lemma {:induction false} BestFirst(bid: bool, s: seq<Level>)
    requires StrictlyOrdered(s)
    ensures Ranked(bid, s)
  {
  }

  lemma {:induction false} SideListsQuotes(bid: bool, snapshot: seq<Quote>, later: seq<Quote>, cap: nat)
    requires Fitting(snapshot, later, cap)
    ensures var s := ApplyRows(FromSnapshot(Keyed(bid, snapshot), cap), Keyed(bid, later), cap);
            Positive(s) && Lists(bid, s, RequotedAll(RequotedAll(map[], snapshot), later))
  {
    FittingSideFits(bid, snapshot, later, cap);
    SideRefinesMap(Keyed(bid, snapshot), Keyed(bid, later), cap);
    var d, m := MapRows(map[], Keyed(bid, snapshot)), RequotedAll(map[], snapshot);
    assert Mirrors(bid, map[], map[]);
    MirrorRows(bid, map[], map[], snapshot);
    MirrorRows(bid, d, m, later);
    RepresentedIsListed(bid, ApplyRows(FromSnapshot(Keyed(bid, snapshot), cap), Keyed(bid, later), cap),
                        MapRows(d, Keyed(bid, later)), RequotedAll(m, later));
  }

  /* What the book should show of its bids and of its asks. */
  ghost function BidsAfter(bids: seq<Quote>, acc: seq<Delta>): map<int, int> {
    RequotedAll(RequotedAll(map[], bids), BidQuotes(acc))
  }

  ghost function AsksAfter(asks: seq<Quote>, acc: seq<Delta>): map<int, int> {
    RequotedAll(RequotedAll(map[], asks), AskQuotes(acc))
  }

  /**
   After a snapshot of distinct prices and any usable feed, while the capacity is not exceeded, the asks are
   the fold of the accepted ask quotes listed by ascending price, and the bids that of the accepted bid quotes
   listed by descending price.
   */
  lemma {:induction false} BookListsItsQuotes(b: Book, id: int, bids: seq<Quote>, asks: seq<Quote>, ds: seq<Delta>,
                                              cap: nat)
    requires b.buf == [] && id > 0
    requires IngestAll(Snapshot(b, id, bids, asks, cap), ds, cap).ok
    requires Fitting(bids, BidQuotes(Accepted(Snapshot(b, id, bids, asks, cap), ds, cap)), cap)
    requires Fitting(asks, AskQuotes(Accepted(Snapshot(b, id, bids, asks, cap), ds, cap)), cap)
    ensures var start := Snapshot(b, id, bids, asks, cap);
            var r, acc := IngestAll(start, ds, cap), Accepted(start, ds, cap);
            && Lists(true, r.bids, BidsAfter(bids, acc)) && Positive(r.bids)
            && Lists(false, r.asks, AsksAfter(asks, acc)) && Positive(r.asks)
  {
    SpliceIsTransparent(b, id, bids, asks, cap);
    var start := Snapshot(b, id, bids, asks, cap);
    var acc := Accepted(start, ds, cap);
    SidesAreFoldsOfAccepted(start, ds, cap);
    FeedsAreKeyed(acc);
    SidesAreKeyed(bids);
    SidesAreKeyed(asks);
    SideListsQuotes(true, bids, BidQuotes(acc), cap);
    SideListsQuotes(false, asks, AskQuotes(acc), cap);
  }

  /** The first level of a side holds its best price: the highest bid, the lowest ask. */
  lemma {:induction false} FirstIsBest(bid: bool, s: seq<Level>, m: map<int, int>)
    requires Lists(bid, s, m) && s != []
    ensures PriceOf(bid, s[0]) in m
    ensures forall p :: p in m ==> if bid then p <= -s[0].key else s[0].key <= p
  {
    forall p | p in m
      ensures if bid then p <= -s[0].key else s[0].key <= p
    {
      assert ListedAt(bid, s, p, m[p]);
      var i :| 0 <= i < |s| && PriceOf(bid, s[i]) == p && s[i].qty == m[p];
    }
  }

  /* ---- depth around the middle ---- */

  /* The money quoted at a price, if the price is no worse than the limit. */
  ghost function MoneyWithin(bid: bool, m: map<int, int>, limit: int): int -> real {
    (p: int) => if p in m && (if bid then limit <= p else p <= limit) then ((p * m[p]) / SCALE) as real else 0.0
  }

  lemma {:induction false} ListsRest(bid: bool, s: seq<Level>, m: map<int, int>)
    requires s != [] && Lists(bid, s, m)
    ensures PriceOf(bid, s[0]) in m && Lists(bid, s[1..], m - {PriceOf(bid, s[0])})
  {
    var p0, rest := PriceOf(bid, s[0]), m - {PriceOf(bid, s[0])};
    forall p | p in rest
      ensures ListedAt(bid, s[1..], p, rest[p])
    {
      assert ListedAt(bid, s, p, m[p]);
      var i :| 0 <= i < |s| && PriceOf(bid, s[i]) == p && s[i].qty == m[p];
      assert s[1..][i - 1] == s[i];
    }
    forall i | 0 <= i < |s| - 1
      ensures PriceOf(bid, s[1..][i]) in rest && rest[PriceOf(bid, s[1..][i])] == s[1..][i].qty
    {
      assert s[1..][i] == s[i + 1] && PriceOf(bid, s[i + 1]) in m;
    }
  }

  lemma {:induction false} NoMoneyWithin(bid: bool, s: seq<Level>, m: map<int, int>, limit: int)
    requires Lists(bid, s, m) && (s == [] || s[0].key > KeyOf(bid, limit))
    ensures SumOver(m.Keys, MoneyWithin(bid, m, limit)) == 0.0
  {
    forall p | p in m.Keys
      ensures MoneyWithin(bid, m, limit)(p) == 0.0
    {
      assert ListedAt(bid, s, p, m[p]);
      FirstIsBest(bid, s, m);
    }
    SumOverSubset({}, m.Keys, MoneyWithin(bid, m, limit));
  }

  lemma {:induction false} MoneyOneMore(bid: bool, m: map<int, int>, p0: int, limit: int)
    requires p0 in m
    ensures SumOver(m.Keys, MoneyWithin(bid, m, limit))
            == MoneyWithin(bid, m, limit)(p0) + SumOver((m - {p0}).Keys, MoneyWithin(bid, m - {p0}, limit))
  {
    var rest := m - {p0};
    SumOverRemove(m.Keys, MoneyWithin(bid, m, limit), p0);
    assert m.Keys - {p0} == rest.Keys;
    SumOverSame(rest.Keys, MoneyWithin(bid, m, limit), MoneyWithin(bid, rest, limit));
  }

  lemma {:induction false} WalkIsMoneyWithin(bid: bool, s: seq<Level>, m: map<int, int>, limit: int)
    requires Lists(bid, s, m)
    ensures DepthWalk(s, if bid then -1 else 1, KeyOf(bid, limit)) as real
         == SumOver(m.Keys, MoneyWithin(bid, m, limit))
    decreases |s|
  {
    if s == [] || s[0].key > KeyOf(bid, limit) {
      NoMoneyWithin(bid, s, m, limit);
    } else {
      var p0, sign := PriceOf(bid, s[0]), if bid then -1 else 1;
      assert sign * s[0].key == p0;
      ListsRest(bid, s, m);
      WalkIsMoneyWithin(bid, s[1..], m - {p0}, limit);
      assert m[p0] == s[0].qty;
      MoneyOneMore(bid, m, p0, limit);
    }
  }

  ghost predicate IsBest(bid: bool, m: map<int, int>, price: int) {
    price in m && forall p :: p in m ==> if bid then p <= price else price <= p
  }

  /**
   The depth query returns, a side at a time, the money quoted no further than the given basis points from the
   middle of the highest bid and the lowest ask.
   */
  lemma {:induction false} DepthIsMoneyNearMid(b: Book, bids: map<int, int>, asks: map<int, int>, bestBid: int,
                                               bestAsk: int, bps: int)
    requires b.ok && Lists(true, b.bids, bids) && Lists(false, b.asks, asks)
    requires IsBest(true, bids, bestBid) && IsBest(false, asks, bestAsk)
    ensures var mid := (bestBid + bestAsk) / 2;
            var half := (mid * bps) / 10_000;
            var r := CumulativeDepth(b, bps);
            && r.Some?
            && r.value.0 as real == SumOver(bids.Keys, MoneyWithin(true, bids, mid - half))
            && r.value.1 as real == SumOver(asks.Keys, MoneyWithin(false, asks, mid + half))
  {
    BestsAreFirst(b, bids, asks, bestBid, bestAsk);
    var mid := (bestBid + bestAsk) / 2;
    var half := (mid * bps) / 10_000;
    DepthIsWalks(b, bps, mid, half);
    DepthAround(b, bids, asks, mid, half);
  }

  lemma {:induction false} DepthIsWalks(b: Book, bps: int, mid: int, half: int)
    requires b.ok && b.bids != [] && b.asks != [] && mid == Mid(b) && half == (mid * bps) / 10_000
    ensures CumulativeDepth(b, bps) == Some((DepthWalk(b.bids, -1, half - mid), DepthWalk(b.asks, 1, mid + half)))
  {
  }

  lemma {:induction false} DepthAround(b: Book, bids: map<int, int>, asks: map<int, int>, mid: int, half: int)
    requires Lists(true, b.bids, bids) && Lists(false, b.asks, asks)
    ensures DepthWalk(b.bids, -1, half - mid) as real == SumOver(bids.Keys, MoneyWithin(true, bids, mid - half))
    ensures DepthWalk(b.asks, 1, mid + half) as real == SumOver(asks.Keys, MoneyWithin(false, asks, mid + half))
  {
    WalkIsMoneyWithin(true, b.bids, bids, mid - half);
    WalkIsMoneyWithin(false, b.asks, asks, mid + half);
  }

  lemma {:induction false} BestsAreFirst(b: Book, bids: map<int, int>, asks: map<int, int>, bestBid: int, bestAsk: int)
    requires Lists(true, b.bids, bids) && Lists(false, b.asks, asks)
    requires IsBest(true, bids, bestBid) && IsBest(false, asks, bestAsk)
    ensures b.bids != [] && b.asks != [] && Mid(b) == (bestBid + bestAsk) / 2
  {
    assert ListedAt(true, b.bids, bestBid, bids[bestBid]) && ListedAt(false, b.asks, bestAsk, asks[bestAsk]);
    FirstIsBest(true, b.bids, bids);
    FirstIsBest(false, b.asks, asks);
  }
}
