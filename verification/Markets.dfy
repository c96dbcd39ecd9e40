/**
 The dictionary-and-sorted-list order book: sparse deltas, REST snapshots stitched onto a playback
 buffer, and ghost trades. Quotes arrive as scaled integers; the write lock and the shared-memory image
 are not part of the model, the epoch counter that brackets each write is.
 */
module Markets {
  import opened Options

  /* Price and quantity. */
  type Row = (int, int)

  /* ---- one side as a map ---- */

  function SetRow(m: map<int, int>, row: Row): map<int, int> {
    if row.1 <= 0 then m - {row.0} else m[row.0 := row.1]
  }

  function SetRows(m: map<int, int>, rows: seq<Row>): map<int, int>
    decreases |rows|
  {
    if rows == [] then m else SetRow(SetRows(m, rows[..|rows| - 1]), rows[|rows| - 1])
  }

  /** A snapshot only ever adds: a row without quantity is skipped, it does not delete. */
  function FromSnapshot(rows: seq<Row>): map<int, int>
    decreases |rows|
  {
    if rows == [] then map[]
    else
      var m, row := FromSnapshot(rows[..|rows| - 1]), rows[|rows| - 1];
      if row.1 > 0 then m[row.0 := row.1] else m
  }

  /** What a price holds in the end is what the last row about it said. */
  lemma {:induction false} LastRowWins(m: map<int, int>, rows: seq<Row>, i: nat)
    requires i < |rows| && forall j :: i < j < |rows| ==> rows[j].0 != rows[i].0
    ensures var r, p := SetRows(m, rows), rows[i].0;
            (p in r <==> rows[i].1 > 0) && (p in r ==> r[p] == rows[i].1)
    decreases |rows|
  {
    var n := |rows| - 1;
    if i < n {
      LastRowWins(m, rows[..n], i);
    }
  }

  lemma {:induction false} UntouchedPricesStay(m: map<int, int>, rows: seq<Row>, p: int)
    requires forall j :: 0 <= j < |rows| ==> rows[j].0 != p
    ensures var r := SetRows(m, rows); (p in r <==> p in m) && (p in m ==> r[p] == m[p])
    decreases |rows|
  {
    if rows != [] {
      UntouchedPricesStay(m, rows[..|rows| - 1], p);
    }
  }

  function Traded(m: map<int, int>, price: int, volume: int): map<int, int> {
    if price !in m then m
    else if m[price] - volume <= 0 then m - {price}
    else m[price := m[price] - volume]
  }

  /* Row i is the last one about the price that carries a quantity. */
  ghost predicate LastQuantity(rows: seq<Row>, p: int, i: int) {
    && 0 <= i < |rows| && rows[i].0 == p && rows[i].1 > 0
    && forall j :: i < j < |rows| ==> rows[j].0 != p || rows[j].1 <= 0
  }

  /** A price in a loaded snapshot holds what the last row about it that carries a quantity said. */
  lemma {:induction false} LastQuantityIsLoaded(rows: seq<Row>, p: int, i: nat)
    requires LastQuantity(rows, p, i)
    ensures p in FromSnapshot(rows) && FromSnapshot(rows)[p] == rows[i].1
    decreases |rows|
  {
    var n := |rows| - 1;
    if i < n {
      LastQuantityIsLoaded(rows[..n], p, i);
    }
  }

  /** A price that no row quotes with a quantity is absent. */
  lemma {:induction false} UnquotedIsAbsent(rows: seq<Row>, p: int)
    requires forall i :: 0 <= i < |rows| && rows[i].0 == p ==> rows[i].1 <= 0
    ensures p !in FromSnapshot(rows)
    decreases |rows|
  {
    if rows != [] {
      UnquotedIsAbsent(rows[..|rows| - 1], p);
    }
  }

  /** A trade lowers the quantity at its price by its volume, removes it when nothing is left, and moves no other. */
  lemma {:induction false} TradeThinsItsPrice(m: map<int, int>, price: int, volume: int)
    ensures var r := Traded(m, price, volume);
            && r - {price} == m - {price}
            && (price in r <==> price in m && m[price] > volume)
            && (price in r ==> r[price] == m[price] - volume)
  {
    assert Traded(m, price, volume) - {price} == m - {price};
  }

  /** Trading in two parts or in one comes to the same. */
  lemma {:induction false} TradesAdd(m: map<int, int>, price: int, v: int, w: int)
    requires w >= 0
    ensures Traded(Traded(m, price, v), price, w) == Traded(m, price, v + w)
  {
    var l, r := Traded(Traded(m, price, v), price, w), Traded(m, price, v + w);
    assert l.Keys == r.Keys;
  }

  /* ---- one side as the source keeps it ---- */

  function Key(descending: bool, price: int): int {
    if descending then -price else price
  }

  ghost predicate Ordered(descending: bool, prices: seq<int>) {
    forall i, j :: 0 <= i < j < |prices| ==> Key(descending, prices[i]) < Key(descending, prices[j])
  }

  /* The list is strictly ordered, best price first, and holds exactly the keys of the dictionary, all of positive
     quantity. */
  ghost predicate Agrees(descending: bool, prices: seq<int>, qty: map<int, int>) {
    && Ordered(descending, prices)
    && (forall p :: p in prices <==> p in qty)
    && (forall p :: p in qty ==> qty[p] > 0)
  }

  /* Where a price belongs. */
  ghost predicate Splits(descending: bool, prices: seq<int>, price: int, at: nat) {
    && at <= |prices|
    && (forall i :: 0 <= i < at ==> Key(descending, prices[i]) < Key(descending, price))
    && (forall i :: at <= i < |prices| ==> Key(descending, prices[i]) >= Key(descending, price))
  }

  ghost predicate Distinct(s: seq<int>) {
    forall i, j :: 0 <= i < j < |s| ==> s[i] != s[j]
  }

  lemma {:induction false} InsertOrdered(d: bool, prices: seq<int>, price: int, at: nat)
    requires Ordered(d, prices) && Splits(d, prices, price, at) && price !in prices
    ensures Ordered(d, prices[..at] + [price] + prices[at..])
    ensures forall p :: p in prices[..at] + [price] + prices[at..] <==> p in prices || p == price
  {
    var longer := prices[..at] + [price] + prices[at..];
    assert forall i :: at <= i < |prices| ==> prices[i] != price;
    assert forall p :: p in longer <==> p in prices[..at] || p == price || p in prices[at..];
    assert prices == prices[..at] + prices[at..];
    assert forall p :: p in prices <==> p in prices[..at] || p in prices[at..];
  }

  lemma {:induction false} InsertAgrees(d: bool, prices: seq<int>, qty: map<int, int>, price: int, q: int, at: nat)
    requires Agrees(d, prices, qty) && Splits(d, prices, price, at) && price !in qty && q > 0
    ensures Agrees(d, prices[..at] + [price] + prices[at..], qty[price := q])
  {
    InsertOrdered(d, prices, price, at);
  }

  lemma {:induction false} InOrder(d: bool, prices: seq<int>, i: nat, j: nat)
    requires Ordered(d, prices) && i < j < |prices|
    ensures Key(d, prices[i]) < Key(d, prices[j])
  {
  }

  lemma {:induction false} SamePlace(d: bool, prices: seq<int>, i: nat, j: nat)
    requires Ordered(d, prices) && i <= j < |prices| && Key(d, prices[i]) >= Key(d, prices[j])
    ensures i == j
  {
  }

  /* Both lists start with the best price there is. */
  lemma {:induction false} SameBest(d: bool, a: seq<int>, b: seq<int>, qty: map<int, int>)
    requires Agrees(d, a, qty) && Agrees(d, b, qty) && a != []
    ensures b != [] && a[0] == b[0]
  {
    assert a[0] in a && a[0] in qty && a[0] in b;
    var k :| 0 <= k < |b| && b[k] == a[0];
    assert b[0] in b && b[0] in qty && b[0] in a;
    var j :| 0 <= j < |a| && a[j] == b[0];
    assert Key(d, b[0]) <= Key(d, b[k]);
    assert Key(d, a[0]) <= Key(d, a[j]);
  }

  lemma {:induction false} PresentAt(d: bool, prices: seq<int>, price: int, at: nat)
    requires Ordered(d, prices) && Splits(d, prices, price, at) && price in prices
    ensures at < |prices| && prices[at] == price
  {
    var k :| 0 <= k < |prices| && prices[k] == price;
    SamePlace(d, prices, at, k);
  }

  lemma {:induction false} RemoveKeepsOrder(d: bool, prices: seq<int>, at: nat)
    requires Ordered(d, prices) && at < |prices|
    ensures Ordered(d, prices[..at] + prices[at + 1..])
  {
    var t := prices[..at] + prices[at + 1..];
    forall a, b | 0 <= a < b < |t|
      ensures Key(d, t[a]) < Key(d, t[b])
    {
      InOrder(d, prices, if a < at then a else a + 1, if b < at then b else b + 1);
    }
  }

  lemma {:induction false} RemoveAgrees(d: bool, prices: seq<int>, qty: map<int, int>, at: nat)
    requires Agrees(d, prices, qty) && at < |prices|
    ensures prices[at] in qty && Agrees(d, prices[..at] + prices[at + 1..], qty - {prices[at]})
  {
    var shorter, gone := prices[..at] + prices[at + 1..], prices[at];
    RemoveKeepsOrder(d, prices, at);
    forall p
      ensures p in shorter <==> p in prices && p != gone
    {
      if p in prices && p != gone {
        var k :| 0 <= k < |prices| && prices[k] == p;
        assert shorter[if k < at then k else k - 1] == p;
      }
      if p in shorter {
        var k :| 0 <= k < |shorter| && shorter[k] == p;
        var was := if k < at then k else k + 1;
        assert prices[was] == p;
        InOrder(d, prices, if was < at then was else at, if was < at then at else was);
      }
    }
  }

  lemma {:induction false} DropFirst(d: bool, prices: seq<int>, qty: map<int, int>)
    requires Agrees(d, prices, qty) && prices != []
    ensures prices[0] in qty && Agrees(d, prices[1..], qty - {prices[0]})
    ensures |qty - {prices[0]}| == |qty| - 1
  {
    RemoveAgrees(d, prices, qty, 0);
    assert prices[..0] + prices[1..] == prices[1..];
    assert (qty - {prices[0]}).Keys == qty.Keys - {prices[0]};
    assert |qty.Keys| == |qty| && |(qty - {prices[0]}).Keys| == |qty - {prices[0]}|;
  }

  lemma {:induction false} NoPrices(d: bool, qty: map<int, int>)
    requires Agrees(d, [], qty)
    ensures qty == map[]
  {
    assert forall p :: p in qty ==> p in [];
  }

  lemma {:induction false} CountAgrees(d: bool, prices: seq<int>, qty: map<int, int>)
    requires Agrees(d, prices, qty)
    ensures |prices| == |qty|
    decreases |prices|
  {
    if prices == [] {
      NoPrices(d, qty);
    } else {
      DropFirst(d, prices, qty);
      CountAgrees(d, prices[1..], qty - {prices[0]});
    }
  }

  lemma {:induction false} SameFirstAndRest(a: seq<int>, b: seq<int>)
    requires a != [] && b != [] && a[0] == b[0] && a[1..] == b[1..]
    ensures a == b
  {
    assert a == [a[0]] + a[1..] && b == [b[0]] + b[1..];
  }

  /** The dictionary determines the list. */
  lemma {:induction false} ListIsDetermined(d: bool, a: seq<int>, b: seq<int>, qty: map<int, int>)
    requires Agrees(d, a, qty) && Agrees(d, b, qty)
    ensures a == b
    decreases |a|
  {
    CountAgrees(d, a, qty);
    CountAgrees(d, b, qty);
    if a != [] {
      SameBest(d, a, b, qty);
      DropFirst(d, a, qty);
      DropFirst(d, b, qty);
      ListIsDetermined(d, a[1..], b[1..], qty - {a[0]});
      SameFirstAndRest(a, b);
    }
  }

  class PriceSide {
    const descending: bool
    var qty: map<int, int>
    var prices: seq<int>

    ghost predicate Valid()
      reads this
    {
      Agrees(descending, prices, qty)
    }

    constructor (descending: bool)
      ensures this.descending == descending && qty == map[] && Valid()
    {
      this.descending, qty, prices := descending, map[], [];
    }

    method BisectLeft(price: int) returns (lo: nat)
      requires Ordered(descending, prices)
      ensures Splits(descending, prices, price, lo)
    {
      lo := 0;
      var hi := |prices|;
      while lo < hi
        invariant lo <= hi <= |prices|
        invariant forall i :: 0 <= i < lo ==> Key(descending, prices[i]) < Key(descending, price)
        invariant forall i :: hi <= i < |prices| ==> Key(descending, prices[i]) >= Key(descending, price)
      {
        var mid := (lo + hi) / 2;
        if Key(descending, prices[mid]) < Key(descending, price) {
          lo := mid + 1;
        } else {
          hi := mid;
        }
      }
    }

    /* Drops a price from both structures. */
    method Pop(price: int)
      requires Valid() && price in qty
      modifies this
      ensures Valid() && qty == old(qty) - {price}
    {
      var at := BisectLeft(price);
      PresentAt(descending, prices, price, at);
      RemoveAgrees(descending, prices, qty, at);
      qty := qty - {price};
      if at < |prices| && prices[at] == price {
        prices := prices[..at] + prices[at + 1..];
      }
    }

    method UpdateRow(row: Row)
      requires Valid()
      modifies this
      ensures Valid() && qty == SetRow(old(qty), row)
    {
      if row.1 <= 0 {
        if row.0 in qty {
          Pop(row.0);
        }
      } else {
        if row.0 !in qty {
          var at := BisectLeft(row.0);
          InsertAgrees(descending, prices, qty, row.0, row.1, at);
          prices := prices[..at] + [row.0] + prices[at..];
        }
        qty := qty[row.0 := row.1];
      }
    }

    method Update(rows: seq<Row>)
      requires Valid()
      modifies this
      ensures Valid() && qty == SetRows(old(qty), rows)
    {
      assert rows[..|rows|] == rows;
      for i := 0 to |rows|
        invariant Valid() && qty == SetRows(old(qty), rows[..i])
      {
        assert rows[..i + 1][..i] == rows[..i];
        UpdateRow(rows[i]);
      }
    }

    method Trade(price: int, volume: int)
      requires Valid()
      modifies this
      ensures Valid() && qty == Traded(old(qty), price, volume)
    {
      if price in qty {
        var left := qty[price] - volume;
        if left <= 0 {
          Pop(price);
        } else {
          qty := qty[price := left];
        }
      }
    }

    method Fill(rows: seq<Row>)
      modifies this
      ensures Valid() && qty == FromSnapshot(rows)
    {
      qty := map[];
      var keys := [];
      assert rows[..|rows|] == rows;
      for i := 0 to |rows|
        invariant qty == FromSnapshot(rows[..i]) && forall p :: p in qty ==> qty[p] > 0
        invariant Distinct(keys) && forall p :: p in keys <==> p in qty
      {
        assert rows[..i + 1][..i] == rows[..i];
        if rows[i].1 > 0 {
          if rows[i].0 !in qty {
            keys := keys + [rows[i].0];
          }
          qty := qty[rows[i].0 := rows[i].1];
        }
      }
      Sort(keys);
    }

    /* `sorted(keys)`, best price first. */
    method Sort(keys: seq<int>)
      requires Distinct(keys)
      modifies this`prices
      ensures Ordered(descending, prices) && forall p :: p in prices <==> p in keys
    {
      prices := [];
      for i := 0 to |keys|
        invariant Ordered(descending, prices) && forall p :: p in prices <==> p in keys[..i]
      {
        assert keys[i] !in keys[..i];
        assert keys[..i + 1] == keys[..i] + [keys[i]];
        var at := BisectLeft(keys[i]);
        InsertOrdered(descending, prices, keys[i], at);
        prices := prices[..at] + [keys[i]] + prices[at..];
      }
      assert keys[..|keys|] == keys;
    }

    /** The best `depth` levels, best first, each with its quantity: no level left out is better than one returned. */
    method Best(depth: nat) returns (levels: seq<Row>)
      requires Valid()
      ensures IsBest(levels, descending, qty, depth)
    {
      CountAgrees(descending, prices, qty);
      levels := [];
      for i := 0 to if depth < |prices| then depth else |prices|
        invariant |levels| == i
        invariant forall j :: 0 <= j < i ==>
            levels[j].0 == prices[j] && levels[j].0 in qty && levels[j].1 == qty[prices[j]]
      {
        assert prices[i] in prices;
        levels := levels + [(prices[i], qty[prices[i]])];
      }
      forall p, i | p in qty && 0 <= i < |levels| && (forall j :: 0 <= j < |levels| ==> levels[j].0 != p)
        ensures Key(descending, levels[i].0) < Key(descending, p)
      {
        var k :| 0 <= k < |prices| && prices[k] == p;
        assert forall j :: 0 <= j < |levels| ==> prices[j] == levels[j].0 != p;
        InOrder(descending, prices, i, k);
      }
    }
  }


  /* ---- the book ---- */

  const BUFFER_MAX: nat := 2000
  const OVERFLOW_LIMIT: nat := 10_000
  const LARGE_GAP: int := 5000

  /* A depth update: first and last update id it covers, either of which a frame may lack. */
  datatype Delta = Delta(first: Option<int>, last: Option<int>, bids: seq<Row>, asks: seq<Row>)

  datatype Status = Unsynced | Synced

  datatype Book = Book(bids: map<int, int>, asks: map<int, int>, lastId: int, synchronized: bool, hydrating: bool,
                       buffer: seq<Delta>, status: Status, epoch: nat)

  const EMPTY_BOOK := Book(map[], map[], 0, false, false, [], Unsynced, 0)

  function OrZero(id: Option<int>): int {
    if id.Some? then id.value else 0
  }

  /* The id of a book at `id` that applies the event. */
  function NextId(id: int, e: Delta): int {
    if e.last.Some? then e.last.value else if e.first.Some? then e.first.value else id
  }

  function Applied(b: Book, e: Delta): Book {
    b.(bids := SetRows(b.bids, e.bids), asks := SetRows(b.asks, e.asks), lastId := NextId(b.lastId, e))
  }

  function Desynced(b: Book): Book {
    b.(status := Unsynced, synchronized := false, hydrating := true, buffer := [])
  }

  /** Appending to the bounded deque drops the oldest. */
  function Buffered(buffer: seq<Delta>, e: Delta): seq<Delta> {
    var longer := buffer + [e];
    if |longer| > BUFFER_MAX then longer[1..] else longer
  }

  function OnDelta(b: Book, e: Delta): (Book, bool) {
    if b.hydrating then
      if |b.buffer| >= OVERFLOW_LIMIT then (b.(buffer := [], hydrating := false, synchronized := false), false)
      else (b.(buffer := Buffered(b.buffer, e)), true)
    else if OrZero(e.last) < b.lastId then (b, true)
    else if OrZero(e.first) > b.lastId + LARGE_GAP then (Desynced(b), false)
    else (Applied(b, e).(epoch := b.epoch + 2), true)
  }

  /** Replays the playback buffer until it is empty or a gap shows. */
  function Stitched(b: Book): Book
    decreases |b.buffer|
  {
    if b.buffer == [] then b
    else
      var e, rest := b.buffer[0], b.(buffer := b.buffer[1..]);
      if OrZero(e.last) <= b.lastId then Stitched(rest)
      else if OrZero(e.first) > b.lastId + 1 then Desynced(rest)
      else Stitched(Applied(rest, e))
  }

  function Anchored(b: Book, id: int, bids: seq<Row>, asks: seq<Row>): Book {
    b.(bids := FromSnapshot(bids), asks := FromSnapshot(asks), lastId := id, synchronized := true, hydrating := false,
       status := Synced)
  }

  function OnSnapshot(b: Book, id: int, bids: seq<Row>, asks: seq<Row>): Book {
    var r := Stitched(Anchored(b, id, bids, asks).(epoch := b.epoch + 1));
    r.(epoch := r.epoch + 1)
  }

  function OnTrade(b: Book, buy: bool, price: int, volume: int): Book {
    if buy then b.(asks := Traded(b.asks, price, volume), epoch := b.epoch + 2)
    else b.(bids := Traded(b.bids, price, volume), epoch := b.epoch + 2)
  }

  /** A buy lowers exactly the ask at its price by its volume, a sale exactly the bid; nothing else changes. */
  lemma {:induction false} TradeTakesTheOtherSide(b: Book, buy: bool, price: int, volume: int)
    ensures var r := OnTrade(b, buy, price, volume);
            var (was, now) := if buy then (b.asks, r.asks) else (b.bids, r.bids);
            && (if buy then r.bids == b.bids else r.asks == b.asks)
            && now - {price} == was - {price}
            && (price in now <==> price in was && was[price] > volume)
            && (price in now ==> now[price] == was[price] - volume)
            && r == b.(bids := r.bids, asks := r.asks, epoch := b.epoch + 2)
  {
    TradeThinsItsPrice(b.asks, price, volume);
    TradeThinsItsPrice(b.bids, price, volume);
  }

  class StateMachineOrderBook {
    const bids: PriceSide
    const asks: PriceSide
    var lastId: int
    var synchronized: bool
    var hydrating: bool
    var buffer: seq<Delta>
    var status: Status
    var epoch: nat

    ghost predicate Valid()
      reads this, bids, asks
    {
      bids.descending && !asks.descending && bids.Valid() && asks.Valid()
    }

    ghost function State(): Book
      reads this, bids, asks
    {
      Book(bids.qty, asks.qty, lastId, synchronized, hydrating, buffer, status, epoch)
    }

    constructor ()
      ensures Valid() && State() == EMPTY_BOOK && fresh(bids) && fresh(asks)
    {
      bids := new PriceSide(true);
      asks := new PriceSide(false);
      lastId, synchronized, hydrating, buffer, status, epoch := 0, false, false, [], Unsynced, 0;
    }

    method OnWsDelta(e: Delta) returns (ok: bool)
      requires Valid()
      modifies this, bids, asks
      ensures Valid() && (State(), ok) == OnDelta(old(State()), e)
    {
      if hydrating {
        if |buffer| >= OVERFLOW_LIMIT {
          buffer, hydrating, synchronized := [], false, false;
          return false;
        }
        buffer := Buffered(buffer, e);
        return true;
      }
      if OrZero(e.last) < lastId {
        return true;
      }
      if OrZero(e.first) > lastId + LARGE_GAP {
        TriggerDesync();
        return false;
      }
      epoch := epoch + 1;
      ApplyDelta(e);
      epoch := epoch + 1;
      return true;
    }

    method TriggerDesync()
      modifies this
      ensures State() == Desynced(old(State()))
    {
      status, synchronized, hydrating, buffer := Unsynced, false, true, [];
    }

    method ApplyDelta(e: Delta)
      requires Valid()
      modifies this`lastId, bids, asks
      ensures Valid() && State() == Applied(old(State()), e)
    {
      bids.Update(e.bids);
      asks.Update(e.asks);
      if e.last.Some? {
        lastId := e.last.value;
      } else if e.first.Some? {
        lastId := e.first.value;
      }
    }

    method ApplyRestSnapshot(id: int, bidRows: seq<Row>, askRows: seq<Row>)
      requires Valid()
      modifies this, bids, asks
      ensures Valid() && State() == OnSnapshot(old(State()), id, bidRows, askRows)
    {
      epoch := epoch + 1;
      bids.Fill(bidRows);
      asks.Fill(askRows);
      lastId, synchronized, hydrating, status := id, true, false, Synced;
      Stitch();
      epoch := epoch + 1;
    }

    method Stitch()
      requires Valid()
      modifies this, bids, asks
      ensures Valid() && State() == Stitched(old(State())) && epoch == old(epoch)
    {
      while buffer != []
        invariant Valid() && Stitched(State()) == Stitched(old(State())) && epoch == old(epoch)
        decreases |buffer|
      {
        var e := buffer[0];
        buffer := buffer[1..];
        if OrZero(e.last) <= lastId {
          continue;
        }
        if OrZero(e.first) > lastId + 1 {
          TriggerDesync();
          return;
        }
        ApplyDelta(e);
      }
    }

    method ApplyTradeGhostUpdate(buy: bool, price: int, volume: int)
      requires Valid()
      modifies this, bids, asks
      ensures Valid() && State() == OnTrade(old(State()), buy, price, volume)
    {
      epoch := epoch + 1;
      if buy {
        asks.Trade(price, volume);
      } else {
        bids.Trade(price, volume);
      }
      epoch := epoch + 1;
    }

    /** The best two prices decide whether any bid reaches any ask. */
    method IsCrossed() returns (crossed: bool)
      requires Valid()
      ensures crossed <==> exists b, a :: b in bids.qty && a in asks.qty && b >= a
    {
      EmptyList(true, bids.prices, bids.qty);
      EmptyList(false, asks.prices, asks.qty);
      if bids.prices == [] || asks.prices == [] {
        return false;
      }
      var bid, ask := bids.prices[0], asks.prices[0];
      assert bid in bids.prices && ask in asks.prices;
      FirstIsBest(true, bids.prices, bids.qty);
      FirstIsBest(false, asks.prices, asks.qty);
      return bid >= ask;
    }

    /** `get_vwap_levels`: nothing unless synchronized, and otherwise the best levels of the side asked for. */
    method GetVwapLevels(buy: bool, depth: nat) returns (levels: seq<Row>)
      requires Valid()
      ensures !synchronized ==> levels == []
      ensures synchronized ==> IsBest(levels, !buy, if buy then asks.qty else bids.qty, depth)
    {
      if !synchronized {
        return [];
      }
      if buy {
        levels := asks.Best(depth);
      } else {
        levels := bids.Best(depth);
      }
    }
  }

  /* The `depth` best entries of a side in order. */
  ghost predicate IsBest(levels: seq<Row>, descending: bool, qty: map<int, int>, depth: nat) {
    && |levels| == (if depth < |qty| then depth else |qty|)
    && (forall i :: 0 <= i < |levels| ==> levels[i].0 in qty && qty[levels[i].0] == levels[i].1)
    && (forall i, j :: 0 <= i < j < |levels| ==> Key(descending, levels[i].0) < Key(descending, levels[j].0))
    && (forall p, i :: p in qty && 0 <= i < |levels| && (forall j :: 0 <= j < |levels| ==> levels[j].0 != p)
          ==> Key(descending, levels[i].0) < Key(descending, p))
  }

  lemma {:induction false} EmptyList(d: bool, prices: seq<int>, qty: map<int, int>)
    requires Agrees(d, prices, qty)
    ensures prices == [] <==> qty == map[]
  {
    CountAgrees(d, prices, qty);
  }

  lemma {:induction false} FirstIsBest(d: bool, prices: seq<int>, qty: map<int, int>)
    requires Agrees(d, prices, qty) && prices != []
    ensures forall p :: p in qty ==> Key(d, prices[0]) <= Key(d, p)
  {
    forall p | p in qty
      ensures Key(d, prices[0]) <= Key(d, p)
    {
      var k :| 0 <= k < |prices| && prices[k] == p;
      if k > 0 {
        InOrder(d, prices, 0, k);
      }
    }
  }

  /* ---- stitching ---- */

  /* The event covers this update id. */
  predicate Covers(e: Delta, id: int) {
    e.first.Some? && e.last.Some? && e.first.value <= id <= e.last.value
  }

  predicate HasIds(e: Delta) {
    e.first.Some? && e.last.Some? && e.first.value <= e.last.value
  }

  ghost predicate Covered(es: seq<Delta>, n: int) {
    exists j :: 0 <= j < |es| && Covers(es[j], n)
  }

  ghost predicate CoveredBetween(es: seq<Delta>, id: int, last: int) {
    id <= last && forall n :: id < n <= last ==> Covered(es, n)
  }

  /* Id `n`, past the snapshot and before the event `es[i]`, is covered by nothing that precedes it. */
  ghost predicate Hole(es: seq<Delta>, id: int, i: nat, n: int) {
    i < |es| && es[i].first.Some? && id < n < es[i].first.value && !Covered(es[..i], n)
  }

  lemma {:induction false} CoverOneMore(es: seq<Delta>, e: Delta)
    ensures forall n :: Covered(es + [e], n) <==> Covered(es, n) || Covers(e, n)
  {
    var longer := es + [e];
    forall n
      ensures Covered(longer, n) <==> Covered(es, n) || Covers(e, n)
    {
      assert longer[|es|] == e;
      assert forall j :: 0 <= j < |es| ==> longer[j] == es[j];
    }
  }

  /** The events that stitching applies. */
  function Replayed(b: Book): (es: seq<Delta>)
    ensures forall e :: e in es ==> e in b.buffer
    decreases |b.buffer|
  {
    if b.buffer == [] then []
    else
      var e, rest := b.buffer[0], b.(buffer := b.buffer[1..]);
      if OrZero(e.last) <= b.lastId then Replayed(rest)
      else if OrZero(e.first) > b.lastId + 1 then []
      else [e] + Replayed(Applied(rest, e))
  }

  lemma {:induction false} CoverBefore(e: Delta, es: seq<Delta>, from: int, last: int)
    requires e.first.Some? && e.last.Some? && e.first.value <= from + 1 && from < e.last.value
    requires CoveredBetween(es, e.last.value, last)
    ensures CoveredBetween([e] + es, from, last)
  {
    forall n | from < n <= last
      ensures Covered([e] + es, n)
    {
      if n <= e.last.value {
        assert ([e] + es)[0] == e && Covers(e, n);
      } else {
        assert Covered(es, n);
        var j :| 0 <= j < |es| && Covers(es[j], n);
        assert ([e] + es)[j + 1] == es[j];
      }
    }
  }

  lemma {:induction false} ReplayCovers(b: Book)
    requires b.status == Synced && forall e :: e in b.buffer ==> e.first.Some? && e.last.Some?
    ensures var r := Stitched(b);
            r.status == Synced ==> r.buffer == [] && CoveredBetween(Replayed(b), b.lastId, r.lastId)
    decreases |b.buffer|
  {
    if b.buffer != [] {
      var e, rest := b.buffer[0], b.(buffer := b.buffer[1..]);
      assert e in b.buffer;
      if e.last.value <= b.lastId {
        ReplayCovers(rest);
      } else if e.first.value <= b.lastId + 1 {
        ReplayCovers(Applied(rest, e));
        if Stitched(b).status == Synced {
          CoverBefore(e, Replayed(Applied(rest, e)), b.lastId, Stitched(b).lastId);
        }
      }
    }
  }

  lemma {:induction false} GapIsHole(b: Book, id: int, seen: seq<Delta>) returns (i: nat, n: int)
    requires b.status == Synced && id <= b.lastId && Stitched(b).status != Synced
    requires forall e :: e in b.buffer ==> HasIds(e)
    requires forall e :: e in seen ==> HasIds(e) && e.last.value <= b.lastId
    ensures Hole(seen + b.buffer, id, i, n)
    decreases |b.buffer|
  {
    var e, rest := b.buffer[0], b.(buffer := b.buffer[1..]);
    assert seen + b.buffer == seen + [e] + rest.buffer;
    assert e in b.buffer;
    if e.last.value <= b.lastId {
      i, n := GapIsHole(rest, id, seen + [e]);
    } else if e.first.value > b.lastId + 1 {
      i, n := |seen|, b.lastId + 1;
      assert (seen + b.buffer)[..i] == seen;
      assert forall j :: 0 <= j < |seen| ==> seen[j] in seen;
    } else {
      i, n := GapIsHole(Applied(rest, e), id, seen + [e]);
    }
  }

  lemma {:induction false} HoleIsGap(b: Book, id: int, seen: seq<Delta>, i: nat, n: int)
    requires b.status == Synced && CoveredBetween(seen, id, b.lastId)
    requires forall e :: e in b.buffer ==> HasIds(e)
    requires Hole(seen + b.buffer, id, i, n) && i >= |seen|
    ensures Stitched(b).status != Synced
    decreases |b.buffer|
  {
    var e, rest := b.buffer[0], b.(buffer := b.buffer[1..]);
    var all := seen + b.buffer;
    CoverOneMore(seen, e);
    assert all == seen + [e] + rest.buffer;
    assert e in b.buffer;
    if i == |seen| {
      assert all[..i] == seen && all[i] == e;
      assert b.lastId < n < e.first.value;
    } else if e.last.value <= b.lastId {
      HoleIsGap(rest, id, seen + [e], i, n);
    } else if e.first.value <= b.lastId + 1 {
      HoleIsGap(Applied(rest, e), id, seen + [e], i, n);
    }
  }

  /**
   When a snapshot ends synchronized, the events applied on top of it cover every id from the snapshot to
   the book's own, whatever the bounded buffer dropped before.
   */
  lemma {:induction false} StitchingLeavesNoHole(b: Book, id: int, bids: seq<Row>, asks: seq<Row>)
    requires forall e :: e in b.buffer ==> e.first.Some? && e.last.Some?
    ensures var r := OnSnapshot(b, id, bids, asks);
            var start := Anchored(b, id, bids, asks).(epoch := b.epoch + 1);
            r.status == Synced ==> r.buffer == [] && CoveredBetween(Replayed(start), id, r.lastId)
  {
    ReplayCovers(Anchored(b, id, bids, asks).(epoch := b.epoch + 1));
  }

  ghost predicate HasHole(es: seq<Delta>, id: int) {
    exists i: nat, n :: Hole(es, id, i, n)
  }

  lemma {:induction false} StitchedExactlyWithoutHoles(b: Book, id: int)
    requires b.status == Synced && b.lastId == id && forall e :: e in b.buffer ==> HasIds(e)
    ensures Stitched(b).status == Synced <==> !HasHole(b.buffer, id)
  {
    assert [] + b.buffer == b.buffer;
    if Stitched(b).status != Synced {
      var i, n := GapIsHole(b, id, []);
    } else if HasHole(b.buffer, id) {
      var i: nat, n :| Hole(b.buffer, id, i, n);
      HoleIsGap(b, id, [], i, n);
    }
  }

  /** It ends synchronized exactly when no id is missing in front of a buffered event. */
  lemma {:induction false} SyncedExactlyWithoutHoles(b: Book, id: int, bids: seq<Row>, asks: seq<Row>)
    requires forall e :: e in b.buffer ==> HasIds(e)
    ensures OnSnapshot(b, id, bids, asks).status == Synced <==> !HasHole(b.buffer, id)
  {
    StitchedExactlyWithoutHoles(Anchored(b, id, bids, asks).(epoch := b.epoch + 1), id);
  }

  /* ---- stitching is live replay ---- */

  function Live(b: Book, es: seq<Delta>): Book
    decreases |es|
  {
    if es == [] then b else Live(OnDelta(b, es[0]).0, es[1..])
  }

  /* The id of a live book after the event: an older event leaves it alone. */
  function After(id: int, e: Delta): int {
    if OrZero(e.last) < id then id else NextId(id, e)
  }

  /* No event ends on the id the book has when its turn comes. */
  predicate NoTies(id: int, es: seq<Delta>)
    decreases |es|
  {
    es == [] || (OrZero(es[0].last) != id && NoTies(After(id, es[0]), es[1..]))
  }

  predicate SameUpToEpoch(a: Book, b: Book) {
    a.(epoch := 0) == b.(epoch := 0)
  }

  lemma {:induction false} ReplayIsLive(b: Book, live: Book)
    requires b.status == Synced && !b.hydrating && SameUpToEpoch(live, b.(buffer := []))
    requires NoTies(b.lastId, b.buffer) && Stitched(b).status == Synced
    ensures SameUpToEpoch(Live(live, b.buffer), Stitched(b))
    decreases |b.buffer|
  {
    if b.buffer != [] {
      var e, rest := b.buffer[0], b.(buffer := b.buffer[1..]);
      if OrZero(e.last) <= b.lastId {
        ReplayIsLive(rest, OnDelta(live, e).0);
      } else {
        ReplayIsLive(Applied(rest, e), OnDelta(live, e).0);
      }
    }
  }

  /**
   Buffering loses nothing: when stitching succeeds, the book is the one a client would have that took the
   snapshot first and then the same events live, provided no event ends on the very id the book has when
   its turn comes. Events may be out of order and may lack ids.
   */
  lemma {:induction false} BufferingCommutesWithSnapshot(b: Book, id: int, bids: seq<Row>, asks: seq<Row>)
    requires NoTies(id, b.buffer) && OnSnapshot(b, id, bids, asks).status == Synced
    ensures SameUpToEpoch(OnSnapshot(b, id, bids, asks),
                          Live(OnSnapshot(b.(buffer := []), id, bids, asks), b.buffer))
  {
    ReplayIsLive(Anchored(b, id, bids, asks).(epoch := b.epoch + 1), OnSnapshot(b.(buffer := []), id, bids, asks));
  }

  /* ---- events that end on the book's own id ---- */

  /* It carries its last id, and its first, if any, is not above it. */
  predicate Numbered(e: Delta) {
    e.last.Some? && OrZero(e.first) <= e.last.value
  }

  ghost predicate AllNumbered(es: seq<Delta>) {
    forall i :: 0 <= i < |es| ==> Numbered(es[i])
  }

  function RowsOf(buy: bool, e: Delta): seq<Row> {
    if buy then e.bids else e.asks
  }

  /* All rows of the events that a live book at `id` applies. */
  function PlayedRows(buy: bool, id: int, es: seq<Delta>): seq<Row>
    decreases |es|
  {
    if es == [] then []
    else (if OrZero(es[0].last) < id then [] else RowsOf(buy, es[0])) + PlayedRows(buy, After(id, es[0]), es[1..])
  }

  /* One side of a live book after the events. */
  function Playing(buy: bool, id: int, m: map<int, int>, es: seq<Delta>): map<int, int>
    decreases |es|
  {
    if es == [] then m
    else if OrZero(es[0].last) < id then Playing(buy, id, m, es[1..])
    else Playing(buy, NextId(id, es[0]), SetRows(m, RowsOf(buy, es[0])), es[1..])
  }

  /* One side of the replay of the same events. */
  function Stitching(buy: bool, id: int, m: map<int, int>, es: seq<Delta>): map<int, int>
    decreases |es|
  {
    if es == [] then m
    else if OrZero(es[0].last) <= id then Stitching(buy, id, m, es[1..])
    else Stitching(buy, NextId(id, es[0]), SetRows(m, RowsOf(buy, es[0])), es[1..])
  }

  ghost predicate Mentions(rows: seq<Row>, price: int) {
    exists i :: 0 <= i < |rows| && rows[i].0 == price
  }

  predicate AgreeAt(a: map<int, int>, b: map<int, int>, price: int) {
    (price in a <==> price in b) && (price in a ==> a[price] == b[price])
  }

  /* A price the rows touch is touched again later, or keeps what it had. */
  ghost predicate HarmlessAt(m: map<int, int>, rows: seq<Row>, later: seq<Row>, p: int) {
    Mentions(rows, p) && !Mentions(later, p) ==> AgreeAt(SetRows(m, rows), m, p)
  }

  ghost predicate Harmless(m: map<int, int>, rows: seq<Row>, later: seq<Row>) {
    forall p :: HarmlessAt(m, rows, later, p)
  }

  /* Whenever an event ends on the id the replay has reached, its rows are harmless at this price. */
  ghost predicate TiesHarmlessAt(buy: bool, id: int, m: map<int, int>, es: seq<Delta>, p: int)
    decreases |es|
  {
    if es == [] then true
    else if OrZero(es[0].last) > id
    then TiesHarmlessAt(buy, NextId(id, es[0]), SetRows(m, RowsOf(buy, es[0])), es[1..], p)
    else
      && (OrZero(es[0].last) == id ==> HarmlessAt(m, RowsOf(buy, es[0]), PlayedRows(buy, id, es[1..]), p))
      && TiesHarmlessAt(buy, id, m, es[1..], p)
  }

  ghost predicate TiesHarmless(buy: bool, id: int, m: map<int, int>, es: seq<Delta>) {
    forall p :: TiesHarmlessAt(buy, id, m, es, p)
  }

  /* Rows wipe out the difference between two dictionaries at the prices they touch, and only there. */
  lemma {:induction false} RowsAgree(a: map<int, int>, b: map<int, int>, rows: seq<Row>, p: int)
    ensures AgreeAt(SetRows(a, rows), SetRows(b, rows), p) <==> Mentions(rows, p) || AgreeAt(a, b, p)
    decreases |rows|
  {
    if rows != [] {
      var n := |rows| - 1;
      RowsAgree(a, b, rows[..n], p);
      if rows[n].0 != p {
        assert Mentions(rows, p) <==> Mentions(rows[..n], p) by {
          assert forall i :: 0 <= i < n ==> rows[..n][i] == rows[i];
        }
      }
    }
  }

  lemma {:induction false} SameMaps(a: map<int, int>, b: map<int, int>)
    requires forall p :: AgreeAt(a, b, p)
    ensures a == b
  {
    forall p
      ensures p in a <==> p in b
      ensures p in a ==> a[p] == b[p]
    {
      assert AgreeAt(a, b, p);
    }
  }

  /** Rows in front of others make no difference exactly when they are harmless. */
  lemma {:induction false} HarmlessExactly(m: map<int, int>, rows: seq<Row>, later: seq<Row>)
    ensures SetRows(SetRows(m, rows), later) == SetRows(m, later) <==> Harmless(m, rows, later)
  {
    var changed := SetRows(m, rows);
    forall p
      ensures AgreeAt(SetRows(changed, later), SetRows(m, later), p) <==> Mentions(later, p) || AgreeAt(changed, m, p)
      ensures !Mentions(rows, p) ==> AgreeAt(changed, m, p)
      ensures HarmlessAt(m, rows, later, p) <==> AgreeAt(SetRows(changed, later), SetRows(m, later), p)
    {
      RowsAgree(changed, m, later, p);
      if !Mentions(rows, p) {
        UntouchedPricesStay(m, rows, p);
      }
    }
    if Harmless(m, rows, later) {
      SameMaps(SetRows(changed, later), SetRows(m, later));
    }
  }

  lemma {:induction false} MentionsConcat(r1: seq<Row>, r2: seq<Row>, p: int)
    ensures Mentions(r1 + r2, p) <==> Mentions(r1, p) || Mentions(r2, p)
  {
    var all := r1 + r2;
    assert forall i :: 0 <= i < |r1| ==> all[i] == r1[i];
    assert forall i :: 0 <= i < |r2| ==> all[|r1| + i] == r2[i];
  }

  /* An event on the book's own id changes only the live side, at the prices it touches. */
  lemma {:induction false} TieMoves(a: map<int, int>, m: map<int, int>, rows: seq<Row>, p: int)
    ensures Mentions(rows, p) ==> (AgreeAt(SetRows(a, rows), m, p) <==> AgreeAt(SetRows(m, rows), m, p))
    ensures !Mentions(rows, p) ==> (AgreeAt(SetRows(a, rows), m, p) <==> AgreeAt(a, m, p))
  {
    RowsAgree(a, m, rows, p);
    if !Mentions(rows, p) {
      UntouchedPricesStay(a, rows, p);
    }
  }

  /** At one price, live run and replay agree exactly when it was settled before or since, and every tie is harmless. */
  lemma {:induction false} SidesAgreeExactly(buy: bool, id: int, a: map<int, int>, m: map<int, int>, es: seq<Delta>,
                                             p: int)
    requires AllNumbered(es)
    ensures AgreeAt(Playing(buy, id, a, es), Stitching(buy, id, m, es), p)
            <==> (Mentions(PlayedRows(buy, id, es), p) || AgreeAt(a, m, p)) && TiesHarmlessAt(buy, id, m, es, p)
    decreases |es|
  {
    if es != [] {
      var e, rest := es[0], es[1..];
      var rows, later := RowsOf(buy, e), PlayedRows(buy, After(id, e), rest);
      assert Numbered(e) && AllNumbered(rest);
      MentionsConcat(rows, later, p);
      if OrZero(e.last) < id {
        assert [] + later == later;
        SidesAgreeExactly(buy, id, a, m, rest, p);
      } else if OrZero(e.last) == id {
        SidesAgreeExactly(buy, id, SetRows(a, rows), m, rest, p);
        TieMoves(a, m, rows, p);
      } else {
        SidesAgreeExactly(buy, NextId(id, e), SetRows(a, rows), SetRows(m, rows), rest, p);
        RowsAgree(a, m, rows, p);
      }
    }
  }

  lemma {:induction false} SidesEqualExactly(buy: bool, id: int, m: map<int, int>, es: seq<Delta>)
    requires AllNumbered(es)
    ensures Playing(buy, id, m, es) == Stitching(buy, id, m, es) <==> TiesHarmless(buy, id, m, es)
  {
    forall p
      ensures AgreeAt(Playing(buy, id, m, es), Stitching(buy, id, m, es), p) <==> TiesHarmlessAt(buy, id, m, es, p)
    {
      SidesAgreeExactly(buy, id, m, m, es, p);
    }
    if TiesHarmless(buy, id, m, es) {
      SameMaps(Playing(buy, id, m, es), Stitching(buy, id, m, es));
    }
  }

  /* The two runs side by side; apart from the sides they end alike. */
  lemma {:induction false} BothRuns(b: Book, live: Book)
    requires b.status == Synced && !b.hydrating && AllNumbered(b.buffer) && Stitched(b).status == Synced
    requires SameUpToEpoch(live, b.(buffer := [], bids := live.bids, asks := live.asks))
    ensures var l, r := Live(live, b.buffer), Stitched(b);
            && l.bids == Playing(true, b.lastId, live.bids, b.buffer)
            && l.asks == Playing(false, b.lastId, live.asks, b.buffer)
            && r.bids == Stitching(true, b.lastId, b.bids, b.buffer)
            && r.asks == Stitching(false, b.lastId, b.asks, b.buffer)
            && SameUpToEpoch(l, r.(bids := l.bids, asks := l.asks))
    decreases |b.buffer|
  {
    if b.buffer != [] {
      var e, rest := b.buffer[0], b.(buffer := b.buffer[1..]);
      assert Numbered(e) && AllNumbered(rest.buffer);
      if OrZero(e.last) <= b.lastId {
        BothRuns(rest, OnDelta(live, e).0);
      } else {
        BothRuns(Applied(rest, e), OnDelta(live, e).0);
      }
    }
  }

  /**
   Stitching equals live replay exactly when, on both sides, whatever an event says that ends on the id the
   book has when its turn comes is said again later or was so already: replay skips such an event, the
   live path applies it.
   */
  lemma {:induction false} TiesExactly(b: Book, id: int, bids: seq<Row>, asks: seq<Row>)
    requires AllNumbered(b.buffer) && OnSnapshot(b, id, bids, asks).status == Synced
    ensures SameUpToEpoch(OnSnapshot(b, id, bids, asks), Live(OnSnapshot(b.(buffer := []), id, bids, asks), b.buffer))
            <==> (TiesHarmless(true, id, FromSnapshot(bids), b.buffer)
                  && TiesHarmless(false, id, FromSnapshot(asks), b.buffer))
  {
    BothRuns(Anchored(b, id, bids, asks).(epoch := b.epoch + 1), OnSnapshot(b.(buffer := []), id, bids, asks));
    SidesEqualExactly(true, id, FromSnapshot(bids), b.buffer);
    SidesEqualExactly(false, id, FromSnapshot(asks), b.buffer);
  }

  lemma {:induction false} NoTiesNoHarm(buy: bool, id: int, m: map<int, int>, es: seq<Delta>, p: int)
    requires NoTies(id, es)
    ensures TiesHarmlessAt(buy, id, m, es, p)
    decreases |es|
  {
    if es != [] {
      NoTiesNoHarm(buy, After(id, es[0]), if OrZero(es[0].last) > id then SetRows(m, RowsOf(buy, es[0])) else m,
                   es[1..], p);
    }
  }

  lemma {:induction false} OneTie(buy: bool, id: int, m: map<int, int>, es: seq<Delta>, i: nat)
    requires i < |es| && OrZero(es[i].last) == id && NoTies(id, es[i + 1..])
    requires forall j :: 0 <= j < i ==> OrZero(es[j].last) < id
    ensures TiesHarmless(buy, id, m, es) <==> Harmless(m, RowsOf(buy, es[i]), PlayedRows(buy, id, es[i + 1..]))
    decreases i
  {
    if i == 0 {
      forall p
        ensures TiesHarmlessAt(buy, id, m, es, p)
                <==> HarmlessAt(m, RowsOf(buy, es[0]), PlayedRows(buy, id, es[1..]), p)
      {
        NoTiesNoHarm(buy, id, m, es[1..], p);
      }
    } else {
      OneTie(buy, id, m, es[1..], i - 1);
      assert es[1..][i..] == es[i + 1..];
      assert forall p :: TiesHarmlessAt(buy, id, m, es, p) <==> TiesHarmlessAt(buy, id, m, es[1..], p);
    }
  }

  /**
   In particular when only one event ends on the snapshot's own id, after older ones: every price it touches
   must be touched again by the events applied later, or have had that quantity in the snapshot already.
   */
  lemma {:induction false} BoundaryEventExactly(b: Book, id: int, bids: seq<Row>, asks: seq<Row>, i: nat)
    requires AllNumbered(b.buffer) && OnSnapshot(b, id, bids, asks).status == Synced
    requires i < |b.buffer| && b.buffer[i].last == Some(id) && NoTies(id, b.buffer[i + 1..])
    requires forall j :: 0 <= j < i ==> OrZero(b.buffer[j].last) < id
    ensures SameUpToEpoch(OnSnapshot(b, id, bids, asks), Live(OnSnapshot(b.(buffer := []), id, bids, asks), b.buffer))
            <==> (Harmless(FromSnapshot(bids), b.buffer[i].bids, PlayedRows(true, id, b.buffer[i + 1..]))
                  && Harmless(FromSnapshot(asks), b.buffer[i].asks, PlayedRows(false, id, b.buffer[i + 1..])))
  {
    TiesExactly(b, id, bids, asks);
    OneTie(true, id, FromSnapshot(bids), b.buffer, i);
    OneTie(false, id, FromSnapshot(asks), b.buffer, i);
  }

  /** An event that ends on the snapshot's own id is skipped in replay and applied again live. */
  lemma {:induction false} BoundaryEventIsTreatedTwice()
    ensures var b := EMPTY_BOOK.(buffer := [Delta(Some(5), Some(5), [(100, 1)], [])]);
            && OnSnapshot(b, 5, [], []).status == Synced
            && 100 !in OnSnapshot(b, 5, [], []).bids
            && 100 in Live(OnSnapshot(EMPTY_BOOK, 5, [], []), b.buffer).bids
  {
    var e := Delta(Some(5), Some(5), [(100, 1)], []);
    var b := EMPTY_BOOK.(buffer := [e]);
    var start, live := Anchored(b, 5, [], []).(epoch := 1), OnSnapshot(EMPTY_BOOK, 5, [], []);
    assert b.buffer[1..] == [];
    assert Stitched(start) == Stitched(start.(buffer := []));
    assert Live(live, b.buffer) == Live(OnDelta(live, e).0, []);
    OneRowSet(map[], 100, 1);
  }

  lemma {:induction false} OneRowSet(m: map<int, int>, price: int, q: int)
    requires q > 0
    ensures SetRows(m, [(price, q)]) == m[price := q]
  {
    assert [(price, q)][..0] == [];
  }

  /** Two buffered events with one last id: the replay applies the first, the live path both. */
  lemma {:induction false} RepeatedIdIsTreatedTwice()
    ensures var es := [Delta(Some(6), Some(6), [(100, 1)], []), Delta(Some(6), Some(6), [(101, 1)], [])];
            var replayed := OnSnapshot(EMPTY_BOOK.(buffer := es), 5, [], []);
            && replayed.status == Synced && replayed.bids == map[100 := 1]
            && Live(OnSnapshot(EMPTY_BOOK, 5, [], []), es).bids == map[100 := 1, 101 := 1]
  {
    var e, f := Delta(Some(6), Some(6), [(100, 1)], []), Delta(Some(6), Some(6), [(101, 1)], []);
    var es := [e, f];
    assert es[1..] == [f] && [f][1..] == [];
    var start := Anchored(EMPTY_BOOK, 5, [], []).(epoch := 1);
    var once := Applied(start, e);
    OneRowSet(map[], 100, 1);
    OneRowSet(map[100 := 1], 101, 1);
    assert Stitched(start.(buffer := es)) == Stitched(once.(buffer := [f])) == Stitched(once.(buffer := []));
    var live := OnSnapshot(EMPTY_BOOK, 5, [], []);
    var live1 := OnDelta(live, e).0;
    assert Live(live, es) == Live(live1, [f]) == Live(OnDelta(live1, f).0, []);
  }

  /* ---- holes in a live run ---- */

  /* The events a live book at `id` applies, and the id it reaches. */
  function Played(id: int, es: seq<Delta>): seq<Delta>
    decreases |es|
  {
    if es == [] then []
    else (if OrZero(es[0].last) < id then [] else [es[0]]) + Played(After(id, es[0]), es[1..])
  }

  function Reached(id: int, es: seq<Delta>): int
    decreases |es|
  {
    if es == [] then id else Reached(After(id, es[0]), es[1..])
  }

  /* Every applied event starts at or below the next id. */
  predicate InReach(id: int, es: seq<Delta>)
    decreases |es|
  {
    es == [] || ((OrZero(es[0].last) < id || OrZero(es[0].first) <= id + 1) && InReach(After(id, es[0]), es[1..]))
  }

  /* At every moment of the run the applied events cover every id since its start. */
  ghost predicate CoveredThroughout(id: int, es: seq<Delta>) {
    forall part :: part <= es ==> CoveredBetween(Played(id, part), id, Reached(id, part))
  }

  ghost predicate AllHaveIds(es: seq<Delta>) {
    forall i :: 0 <= i < |es| ==> HasIds(es[i])
  }

  /* A live book that stays synchronized is at the id reached. */
  lemma {:induction false} LiveReaches(b: Book, es: seq<Delta>)
    requires b.status == Synced && !b.hydrating && Live(b, es).status == Synced
    ensures Live(b, es).lastId == Reached(b.lastId, es)
    decreases |es|
  {
    if es != [] {
      if OnDelta(b, es[0]).0.status != Synced {
        UnsyncedStays(OnDelta(b, es[0]).0, es[1..]);
      } else {
        LiveReaches(OnDelta(b, es[0]).0, es[1..]);
      }
    }
  }

  lemma {:induction false} UnsyncedStays(b: Book, es: seq<Delta>)
    requires b.status != Synced
    ensures Live(b, es).status != Synced
    decreases |es|
  {
    if es != [] {
      UnsyncedStays(OnDelta(b, es[0]).0, es[1..]);
    }
  }

  lemma {:induction false} SyncedSoFar(b: Book, es: seq<Delta>, part: seq<Delta>)
    requires part <= es && Live(b, es).status == Synced
    ensures Live(b, part).status == Synced
    decreases |part|
  {
    if part != [] {
      SyncedSoFar(OnDelta(b, es[0]).0, es[1..], part[1..]);
    } else if b.status != Synced {
      UnsyncedStays(b, es);
    }
  }

  lemma {:induction false} InReachSoFar(id: int, es: seq<Delta>, part: seq<Delta>)
    requires part <= es && InReach(id, es)
    ensures InReach(id, part)
    decreases |part|
  {
    if part != [] {
      InReachSoFar(After(id, es[0]), es[1..], part[1..]);
    }
  }

  lemma {:induction false} CoverMore(e: Delta, es: seq<Delta>, id: int, last: int)
    requires CoveredBetween(es, id, last)
    ensures CoveredBetween([e] + es, id, last)
  {
    forall n | id < n <= last
      ensures Covered([e] + es, n)
    {
      assert Covered(es, n);
      var j :| 0 <= j < |es| && Covers(es[j], n);
      assert ([e] + es)[j + 1] == es[j];
    }
  }

  lemma {:induction false} InReachCovers(id: int, es: seq<Delta>)
    requires AllHaveIds(es) && InReach(id, es)
    ensures CoveredBetween(Played(id, es), id, Reached(id, es))
    decreases |es|
  {
    if es != [] {
      var e, later := es[0], Played(After(id, es[0]), es[1..]);
      assert HasIds(e) && AllHaveIds(es[1..]);
      InReachCovers(After(id, e), es[1..]);
      if e.last.value < id {
        assert [] + later == later;
      } else if e.last.value == id {
        CoverMore(e, later, id, Reached(id, es));
      } else {
        CoverBefore(e, later, id, Reached(id, es));
      }
    }
  }

  /* The first applied event out of reach, and what came before it. */
  lemma {:induction false} FirstOutOfReach(id: int, es: seq<Delta>) returns (earlier: seq<Delta>, e: Delta)
    requires AllHaveIds(es) && !InReach(id, es)
    ensures earlier + [e] <= es && HasIds(e) && AllHaveIds(earlier)
    ensures e.first.value > Reached(id, earlier) + 1
    decreases |es|
  {
    var first := es[0];
    assert HasIds(first);
    if OrZero(first.last) >= id && OrZero(first.first) > id + 1 {
      earlier, e := [], first;
    } else {
      var later;
      assert AllHaveIds(es[1..]);
      later, e := FirstOutOfReach(After(id, first), es[1..]);
      earlier := [first] + later;
      assert earlier[1..] == later && earlier + [e] == [first] + (later + [e]);
    }
  }

  lemma {:induction false} PlayedSnoc(id: int, es: seq<Delta>, e: Delta)
    ensures Played(id, es + [e]) == Played(id, es) + (if OrZero(e.last) < Reached(id, es) then [] else [e])
    ensures Reached(id, es + [e]) == After(Reached(id, es), e)
    decreases |es|
  {
    if es == [] {
      assert [] + [e] == [e] && [e][1..] == [];
    } else {
      PlayedSnoc(After(id, es[0]), es[1..], e);
      assert (es + [e])[1..] == es[1..] + [e];
    }
  }

  lemma {:induction false} PlayedAreBelow(id: int, es: seq<Delta>)
    requires AllHaveIds(es)
    ensures id <= Reached(id, es) && forall n :: Covered(Played(id, es), n) ==> n <= Reached(id, es)
    decreases |es|
  {
    if es != [] {
      var e, later := es[0], Played(After(id, es[0]), es[1..]);
      assert HasIds(e) && AllHaveIds(es[1..]);
      PlayedAreBelow(After(id, e), es[1..]);
      forall n | Covered(Played(id, es), n)
        ensures n <= Reached(id, es)
      {
        var all := Played(id, es);
        var j :| 0 <= j < |all| && Covers(all[j], n);
        if all[j] != e {
          assert later[if OrZero(e.last) < id then j else j - 1] == all[j];
          assert Covered(later, n);
        }
      }
    }
  }

  /* The events the live book applies cover every id from its own to the one it ends with. */
  ghost predicate LeavesNoHole(b: Book, es: seq<Delta>) {
    CoveredBetween(Played(b.lastId, es), b.lastId, Live(b, es).lastId)
  }

  /**
   A live run that stays synchronized leaves no hole at any moment exactly when every event it applies
   starts at or below the next id; the live path itself only asks for a start within 5000 of it.
   */
  lemma {:induction false} LiveCoversExactly(b: Book, es: seq<Delta>)
    requires AllHaveIds(es)
    requires b.status == Synced && !b.hydrating && Live(b, es).status == Synced
    ensures InReach(b.lastId, es) <==> forall part :: part <= es ==> LeavesNoHole(b, part)
  {
    var id := b.lastId;
    forall part | part <= es
      ensures LeavesNoHole(b, part) <==> CoveredBetween(Played(id, part), id, Reached(id, part))
    {
      SyncedSoFar(b, es, part);
      LiveReaches(b, part);
    }
    CoversExactly(id, es);
  }

  lemma {:induction false} CoversExactly(id: int, es: seq<Delta>)
    requires AllHaveIds(es)
    ensures InReach(id, es) <==> CoveredThroughout(id, es)
  {
    if InReach(id, es) {
      forall part | part <= es
        ensures CoveredBetween(Played(id, part), id, Reached(id, part))
      {
        InReachSoFar(id, es, part);
        InReachCovers(id, part);
      }
    } else {
      var earlier, e := FirstOutOfReach(id, es);
      OutOfReachUncovers(id, earlier, e);
    }
  }

  lemma {:induction false} OutOfReachUncovers(id: int, earlier: seq<Delta>, e: Delta)
    requires AllHaveIds(earlier) && HasIds(e) && e.first.value > Reached(id, earlier) + 1
    ensures !CoveredBetween(Played(id, earlier + [e]), id, Reached(id, earlier + [e]))
  {
    var n := Reached(id, earlier) + 1;
    PlayedSnoc(id, earlier, e);
    PlayedAreBelow(id, earlier);
    CoverOneMore(Played(id, earlier), e);
    assert !Covered(Played(id, earlier + [e]), n);
  }

  /** A frame up to 5000 ids ahead is applied and the book stays synchronized, whatever ids are missing. */
  lemma {:induction false} JumpIsApplied(b: Book, e: Delta)
    requires b.status == Synced && b.synchronized && !b.hydrating && HasIds(e)
    requires b.lastId + 1 < e.first.value <= b.lastId + 5000
    ensures var (r, ok) := OnDelta(b, e);
            && ok && r.status == Synced && r.synchronized && r.lastId == e.last.value
            && !CoveredBetween(Played(b.lastId, [e]), b.lastId, r.lastId)
  {
    assert [] + [e] == [e];
    OutOfReachUncovers(b.lastId, [], e);
    PlayedSnoc(b.lastId, [], e);
  }

  /* ---- losing and regaining synchronization ---- */

  /* The newest 2000 events. */
  function NewestEvents(es: seq<Delta>): seq<Delta> {
    if |es| > 2000 then es[|es| - 2000..] else es
  }

  /** While hydrating, whatever arrives is buffered, the newest 2000 events of it, and nothing else moves. */
  lemma {:induction false} HydratingBuffers(b: Book, es: seq<Delta>)
    requires b.hydrating && |b.buffer| <= 2000
    ensures Live(b, es) == b.(buffer := NewestEvents(b.buffer + es))
    decreases |es|
  {
    if es == [] {
      assert b.buffer + [] == b.buffer;
    } else {
      var next := OnDelta(b, es[0]).0;
      HydratingBuffers(next, es[1..]);
      var whole := b.buffer + es;
      assert b.buffer + [es[0]] + es[1..] == whole;
      if |b.buffer| == 2000 {
        assert next.buffer + es[1..] == whole[1..];
        assert NewestEvents(whole[1..]) == NewestEvents(whole);
      }
    }
  }

  lemma {:induction false} EpochDoesNotSteer(a: Book, b: Book)
    requires SameUpToEpoch(a, b)
    ensures SameUpToEpoch(Stitched(a), Stitched(b))
    decreases |a.buffer|
  {
    if a.buffer != [] {
      var e := a.buffer[0];
      var a1, b1 := a.(buffer := a.buffer[1..]), b.(buffer := b.buffer[1..]);
      if OrZero(e.last) <= a.lastId {
        EpochDoesNotSteer(a1, b1);
      } else if OrZero(e.first) <= a.lastId + 1 {
        EpochDoesNotSteer(Applied(a1, e), Applied(b1, e));
      }
    }
  }

  /**
   A frame more than 5000 ids ahead ends synchronization and is reported; from then on events are buffered, and
   the next snapshot makes the book that it would make of an empty one with the same newest events waiting.
   */
  lemma {:induction false} LargeGapRehydrates(b: Book, e: Delta, es: seq<Delta>, id: int, bids: seq<Row>,
                                              asks: seq<Row>)
    requires !b.hydrating && e.last.Some? && e.last.value >= b.lastId
    requires e.first.Some? && e.first.value > b.lastId + 5000
    ensures var (r, ok) := OnDelta(b, e);
            && !ok && r.status == Unsynced && !r.synchronized && r.hydrating
            && r.bids == b.bids && r.asks == b.asks && r.lastId == b.lastId
            && SameUpToEpoch(OnSnapshot(Live(r, es), id, bids, asks),
                             OnSnapshot(EMPTY_BOOK.(buffer := NewestEvents(es)), id, bids, asks))
  {
    var r := OnDelta(b, e).0;
    HydratingBuffers(r, es);
    assert [] + es == es;
    var held := Live(r, es);
    EpochDoesNotSteer(Anchored(held, id, bids, asks).(epoch := held.epoch + 1),
                      Anchored(EMPTY_BOOK.(buffer := NewestEvents(es)), id, bids, asks).(epoch := 1));
  }

  /** A live book ignores an older frame without complaint, and applies any other that starts within 5000 ids. */
  lemma {:induction false} LiveFrameLands(b: Book, e: Delta)
    requires !b.hydrating
    ensures var last, first := if e.last.Some? then e.last.value else 0, if e.first.Some? then e.first.value else 0;
            var (r, ok) := OnDelta(b, e);
            && (ok <==> last < b.lastId || first <= b.lastId + 5000)
            && (last < b.lastId ==> r == b)
            && (last >= b.lastId && first <= b.lastId + 5000 ==>
                  && r.epoch == b.epoch + 2 && r.bids == SetRows(b.bids, e.bids) && r.asks == SetRows(b.asks, e.asks)
                  && r.status == b.status && (e.last.Some? ==> r.lastId == e.last.value))
  {
  }

  /* ---- whole runs ---- */

  datatype Event =
    | Frame(delta: Delta)
    | Snapshot(id: int, bids: seq<Row>, asks: seq<Row>)
    | Trade(buy: bool, price: int, volume: int)
    | Desync

  function Next(b: Book, e: Event): Book {
    match e
    case Frame(delta) => OnDelta(b, delta).0
    case Snapshot(id, bids, asks) => OnSnapshot(b, id, bids, asks)
    case Trade(buy, price, volume) => OnTrade(b, buy, price, volume)
    case Desync => Desynced(b)
  }

  function Run(b: Book, es: seq<Event>): Book
    decreases |es|
  {
    if es == [] then b else Run(Next(b, es[0]), es[1..])
  }

  ghost predicate Positive(m: map<int, int>) {
    forall p :: p in m ==> m[p] > 0
  }

  /* Quantities are positive, no write is left open, and the flags agree; the overflow guard is never reached. */
  ghost predicate BookInv(b: Book) {
    && Positive(b.bids) && Positive(b.asks) && b.epoch % 2 == 0
    && |b.buffer| <= 2000
    && (b.status == Synced <==> b.synchronized) && (b.hydrating ==> !b.synchronized)
    && (!b.hydrating ==> b.buffer == [])
  }

  lemma {:induction false} RowsStayPositive(m: map<int, int>, rows: seq<Row>)
    requires Positive(m)
    ensures Positive(SetRows(m, rows))
    decreases |rows|
  {
    if rows != [] {
      RowsStayPositive(m, rows[..|rows| - 1]);
    }
  }

  lemma {:induction false} SnapshotsArePositive(rows: seq<Row>)
    ensures Positive(FromSnapshot(rows))
    decreases |rows|
  {
    if rows != [] {
      SnapshotsArePositive(rows[..|rows| - 1]);
    }
  }

  lemma {:induction false} StitchKeepsInv(b: Book)
    requires BookInv(b.(buffer := [], epoch := 0)) && !b.hydrating
    ensures BookInv(Stitched(b).(epoch := 0)) && Stitched(b).epoch == b.epoch
    decreases |b.buffer|
  {
    if b.buffer != [] {
      var e, rest := b.buffer[0], b.(buffer := b.buffer[1..]);
      if OrZero(e.last) <= b.lastId {
        StitchKeepsInv(rest);
      } else if OrZero(e.first) <= b.lastId + 1 {
        RowsStayPositive(b.bids, e.bids);
        RowsStayPositive(b.asks, e.asks);
        StitchKeepsInv(Applied(rest, e));
      }
    }
  }

  lemma {:induction false} NextKeepsInv(b: Book, e: Event)
    requires BookInv(b)
    ensures BookInv(Next(b, e))
  {
    match e
    case Frame(delta) =>
      RowsStayPositive(b.bids, delta.bids);
      RowsStayPositive(b.asks, delta.asks);
    case Snapshot(id, bids, asks) =>
      SnapshotsArePositive(bids);
      SnapshotsArePositive(asks);
      StitchKeepsInv(Anchored(b, id, bids, asks).(epoch := b.epoch + 1));
    case Trade(_, _, _) =>
    case Desync =>
  }

  /** Every run keeps the book consistent and its buffer within 2000 entries. */
  lemma {:induction false} RunKeepsInv(b: Book, es: seq<Event>)
    requires BookInv(b)
    ensures BookInv(Run(b, es))
    decreases |es|
  {
    if es != [] {
      NextKeepsInv(b, es[0]);
      RunKeepsInv(Next(b, es[0]), es[1..]);
    }
  }

  /**
   So a frame that arrives while hydrating is always buffered: the overflow branch is dead, the oldest frame
   just goes.
   */
  lemma {:induction false} OverflowIsNeverReported(es: seq<Event>, e: Delta)
    ensures var b := Run(EMPTY_BOOK, es);
            b.hydrating ==> OnDelta(b, e).1 && OnDelta(b, e).0 == b.(buffer := Buffered(b.buffer, e))
  {
    RunKeepsInv(EMPTY_BOOK, es);
  }
}
