/**
 The decimal dollar bar generator: a tick is cut over as many bars as its dollar volume fills, and its
 order flow imbalance is cut in proportion. Decimals are reals; one side and one price per tick.
 */
module RealtimeBars {
  import opened Options

  datatype Bar = Bar(open: real, high: real, low: real, close: real, crypto: real, usd: real, buyUsd: real,
                     sellUsd: real, ticks: nat, startTs: real, endTs: real, ofi: real)

  datatype Tick = Tick(price: real, isBuy: bool, ts: real)

  function Fresh(t: Tick): Bar {
    Bar(t.price, t.price, t.price, t.price, 0.0, 0.0, 0.0, 0.0, 0, t.ts, t.ts, 0.0)
  }

  function Crypto(usd: real, price: real): real {
    if price > 0.0 then usd / price else 0.0
  }

  /** `_apply_chunk`. */
  function Apply(b: Bar, t: Tick, usd: real, ofi: real): Bar {
    Bar(b.open, if t.price > b.high then t.price else b.high, if t.price < b.low then t.price else b.low, t.price,
        b.crypto + Crypto(usd, t.price), b.usd + usd,
        if t.isBuy then b.buyUsd + usd else b.buyUsd, if t.isBuy then b.sellUsd else b.sellUsd + usd,
        b.ticks + 1, b.startTs, t.ts, b.ofi + ofi)
  }

  /* The open bar is not full. */
  ghost predicate Partial(cur: Option<Bar>, threshold: real) {
    cur.Some? ==> 0.0 <= cur.value.usd < threshold
  }

  function OpenBar(cur: Option<Bar>, t: Tick): Bar {
    if cur.Some? then cur.value else Fresh(t)
  }

  /* The share of the imbalance that goes with `part` of `usd` dollars. */
  function OfiShare(ofi: real, part: real, usd: real): real
    requires usd > 0.0
  {
    ofi * (if part / usd > 1.0 then 1.0 else part / usd)
  }

  /* How many whole and partial bars the dollars would fill. */
  function Fills(usd: real, threshold: real): real
    requires threshold > 0.0
  {
    usd / threshold
  }

  /** What one tick of `usd` dollars does: the bars it completes and the bar it leaves open. */
  function Feed(cur: Option<Bar>, threshold: real, t: Tick, usd: real, ofi: real): (r: (seq<Bar>, Option<Bar>))
    requires threshold > 0.0 && Partial(cur, threshold)
    ensures Partial(r.1, threshold)
    ensures forall i :: 0 <= i < |r.0| ==> r.0[i].usd == threshold
    decreases cur.Some?, Fills(usd, threshold)
  {
    if usd <= 0.0 then ([], cur)
    else
      var bar := OpenBar(cur, t);
      var room := threshold - bar.usd;
      if usd <= room then
        var grown := Apply(bar, t, usd, ofi);
        if grown.usd >= threshold then ([grown], None) else ([], Some(grown))
      else
        var share := OfiShare(ofi, room, usd);
        DividedDecrease(usd, room, threshold);
        var (more, last) := Feed(None, threshold, t, usd - room, ofi - share);
        ([Apply(bar, t, room, share)] + more, last)
  }

  /* Filling a whole bar brings the dollars down by exactly one threshold. */
  lemma {:induction false} DividedDecrease(usd: real, room: real, threshold: real)
    requires threshold > 0.0
    ensures room == threshold ==> Fills(usd - room, threshold) == Fills(usd, threshold) - 1.0
    ensures usd > 0.0 ==> Fills(usd, threshold) > 0.0
  {
    assert (usd - threshold) / threshold == usd / threshold - threshold / threshold;
  }

  class RealtimeDollarBarGenerator {
    const threshold: real
    var current: Option<Bar>

    ghost predicate Valid()
      reads this
    {
      threshold > 0.0 && Partial(current, threshold)
    }

    /* A threshold that is not positive would never let the splitting loop end. */
    constructor (threshold: real)
      requires threshold > 0.0
      ensures Valid() && current == None && this.threshold == threshold
    {
      this.threshold := threshold;
      current := None;
    }

    method ProcessTick(t: Tick, volume: real, ofi: real) returns (completed: seq<Bar>)
      requires Valid()
      modifies this
      ensures Valid()
      ensures (completed, current) == Feed(old(current), threshold, t, t.price * volume, ofi)
    {
      var usd, left := t.price * volume, ofi;
      ghost var whole := Feed(current, threshold, t, usd, left);
      completed := [];
      NothingThen(whole);
      while usd > 0.0
        invariant Valid()
        invariant Then(completed, Feed(current, threshold, t, usd, left)) == whole
        decreases usd > 0.0, current.Some?, Fills(usd, threshold)
      {
        DividedDecrease(usd, threshold, threshold);
        var closed;
        usd, left, closed := TakeChunk(t, usd, left);
        if closed.Some? {
          ThenOne(completed, closed.value, Feed(current, threshold, t, usd, left));
          completed := completed + [closed.value];
        }
      }
      ThenNothing(completed, current);
    }

    /** One turn of the splitting loop. */
    method TakeChunk(t: Tick, usd: real, ofi: real) returns (usdLeft: real, ofiLeft: real, closed: Option<Bar>)
      requires Valid() && usd > 0.0
      modifies this
      ensures Valid()
      ensures usdLeft > 0.0 ==>
                current == None && (old(current) == None ==> Fills(usdLeft, threshold) == Fills(usd, threshold) - 1.0)
      ensures var rest := Feed(current, threshold, t, usdLeft, ofiLeft);
              Feed(old(current), threshold, t, usd, ofi)
                == (if closed.Some? then Then([closed.value], rest) else rest)
    {
      DividedDecrease(usd, threshold, threshold);
      if current.None? {
        current := Some(Fresh(t));
      }
      var bar := current.value;
      var room := threshold - bar.usd;
      if usd <= room {
        bar := Apply(bar, t, usd, ofi);
        if bar.usd >= threshold {
          current := None;
          assert [bar] + [] == [bar];
          return 0.0, ofi, Some(bar);
        } else {
          current := Some(bar);
          return 0.0, ofi, None;
        }
      } else {
        var share := OfiShare(ofi, room, usd);
        current := None;
        return usd - room, ofi - share, Some(Apply(bar, t, room, share));
      }
    }
  }

  function Then(first: seq<Bar>, more: (seq<Bar>, Option<Bar>)): (seq<Bar>, Option<Bar>) {
    (first + more.0, more.1)
  }

  lemma {:induction false} NothingThen(rest: (seq<Bar>, Option<Bar>))
    ensures Then([], rest) == rest
  {
    assert [] + rest.0 == rest.0;
  }

  lemma {:induction false} ThenNothing(done: seq<Bar>, last: Option<Bar>)
    ensures Then(done, ([], last)) == (done, last)
  {
    assert done + [] == done;
  }

  lemma {:induction false} ThenOne(done: seq<Bar>, b: Bar, rest: (seq<Bar>, Option<Bar>))
    ensures Then(done, Then([b], rest)) == Then(done + [b], rest)
  {
    assert done + ([b] + rest.0) == done + [b] + rest.0;
  }

  /* ---- what a tick leaves in the bars ---- */

  ghost predicate Extends(b: Bar, was: Option<Bar>, t: Tick) {
    match was
    case None =>
      && b.open == t.price && b.high == t.price && b.low == t.price && b.startTs == t.ts && b.ticks == 1
    case Some(w) =>
      && b.open == w.open && b.startTs == w.startTs && b.ticks == w.ticks + 1
      && w.high <= b.high && t.price <= b.high && (b.high == w.high || b.high == t.price)
      && b.low <= w.low && b.low <= t.price && (b.low == w.low || b.low == t.price)
  }

  /* The bar with `usd` dollars and `ofi` imbalance of this tick on top of what it was, closed at its price and time. */
  ghost predicate GrownBy(b: Bar, was: Option<Bar>, t: Tick, usd: real, ofi: real) {
    var w := if was.Some? then was.value else Fresh(t);
    && Extends(b, was, t) && b.close == t.price && b.endTs == t.ts
    && b.usd == w.usd + usd && b.ofi == w.ofi + ofi
    && (if t.isBuy then b.buyUsd == w.buyUsd + usd && b.sellUsd == w.sellUsd
        else b.buyUsd == w.buyUsd && b.sellUsd == w.sellUsd + usd)
    && (t.price > 0.0 ==> (b.crypto - w.crypto) * t.price == usd)
    && (was == None ==> w.usd == w.buyUsd == w.sellUsd == w.crypto == w.ofi == 0.0)
  }

  lemma {:induction false} ApplyGrows(was: Option<Bar>, t: Tick, usd: real, ofi: real)
    ensures GrownBy(Apply(OpenBar(was, t), t, usd, ofi), was, t, usd, ofi)
  {
    if t.price > 0.0 {
      assert (usd / t.price) * t.price == usd;
    }
  }

  ghost predicate AtRate(ofi: real, usd: real, rate: real) {
    ofi == rate * usd
  }

  lemma {:induction false} RatioBelowOne(part: real, usd: real)
    requires 0.0 < part < usd
    ensures part / usd <= 1.0
  {
  }

  lemma {:induction false} ShareAtRate(ofi: real, rate: real, part: real, usd: real)
    requires 0.0 < part < usd && AtRate(ofi, usd, rate)
    ensures AtRate(OfiShare(ofi, part, usd), part, rate) && AtRate(ofi - OfiShare(ofi, part, usd), usd - part, rate)
  {
    var q := part / usd;
    assert q * usd == part;
    RatioBelowOne(part, usd);
    assert ofi * q == rate * (q * usd);
  }

  /* All completed bars but the first, and the open bar after one, hold nothing but this tick. */
  ghost predicate OwnBars(out: (seq<Bar>, Option<Bar>), from: nat, threshold: real, t: Tick, rate: real) {
    && (forall i :: from <= i < |out.0| ==> GrownBy(out.0[i], None, t, threshold, rate * threshold))
    && (out.1.Some? ==> GrownBy(out.1.value, None, t, out.1.value.usd, rate * out.1.value.usd))
  }

  /* What the bars are after a tick. */
  ghost predicate GrownBars(out: (seq<Bar>, Option<Bar>), cur: Option<Bar>, threshold: real, t: Tick, usd: real,
                            rate: real)
  {
    var room := if cur.Some? then threshold - cur.value.usd else threshold;
    && (out.0 == [] <==> usd < room)
    && (usd < room ==> out.1.Some? && GrownBy(out.1.value, cur, t, usd, rate * usd))
    && (usd >= room ==> GrownBy(out.0[0], cur, t, room, rate * room) && OwnBars(out, 1, threshold, t, rate))
  }

  /**
   A tick that fits grows the open bar; one that does not fills it and then bars of its own, and every bar gets
   the imbalance in proportion to the dollars it gets.
   */
  lemma {:induction false} TickGrowsBars(cur: Option<Bar>, threshold: real, t: Tick, usd: real, ofi: real, rate: real)
    requires threshold > 0.0 && Partial(cur, threshold) && usd > 0.0 && AtRate(ofi, usd, rate)
    ensures GrownBars(Feed(cur, threshold, t, usd, ofi), cur, threshold, t, usd, rate)
    decreases cur.Some?, Fills(usd, threshold)
  {
    var room := threshold - OpenBar(cur, t).usd;
    if usd <= room {
      TickFits(cur, threshold, t, usd, ofi, rate);
    } else {
      var share := OfiShare(ofi, room, usd);
      var left, ofiLeft := usd - room, ofi - share;
      ShareAtRate(ofi, rate, room, usd);
      DividedDecrease(usd, room, threshold);
      assert AtRate(ofiLeft, left, rate);
      TickGrowsBars(None, threshold, t, left, ofiLeft, rate);
      TickOverflows(cur, threshold, t, usd, ofi, room, share, rate);
    }
  }

  lemma {:induction false} TickFits(cur: Option<Bar>, threshold: real, t: Tick, usd: real, ofi: real, rate: real)
    requires threshold > 0.0 && Partial(cur, threshold) && AtRate(ofi, usd, rate)
    requires 0.0 < usd <= threshold - OpenBar(cur, t).usd
    ensures GrownBars(Feed(cur, threshold, t, usd, ofi), cur, threshold, t, usd, rate)
  {
    ApplyGrows(cur, t, usd, ofi);
    OneBar(Apply(OpenBar(cur, t), t, usd, ofi), cur, threshold, t, usd, ofi, rate);
  }

  lemma {:induction false} OneBar(b: Bar, cur: Option<Bar>, threshold: real, t: Tick, usd: real, ofi: real, rate: real)
    requires GrownBy(b, cur, t, usd, ofi) && AtRate(ofi, usd, rate) && usd <= threshold - OpenBar(cur, t).usd
    ensures GrownBars(if b.usd >= threshold then ([b], None) else ([], Some(b)), cur, threshold, t, usd, rate)
  {
  }

  lemma {:induction false} TickOverflows(cur: Option<Bar>, threshold: real, t: Tick, usd: real, ofi: real, room: real,
                                         share: real, rate: real)
    requires threshold > 0.0 && Partial(cur, threshold) && room == threshold - OpenBar(cur, t).usd && usd > room
    requires share == OfiShare(ofi, room, usd) && AtRate(share, room, rate)
    requires GrownBars(Feed(None, threshold, t, usd - room, ofi - share), None, threshold, t, usd - room, rate)
    ensures GrownBars(Feed(cur, threshold, t, usd, ofi), cur, threshold, t, usd, rate)
  {
    var b, rest := Apply(OpenBar(cur, t), t, room, share), Feed(None, threshold, t, usd - room, ofi - share);
    FeedOverflows(cur, threshold, t, usd, ofi, room, share);
    ApplyGrows(cur, t, room, share);
    LaterBars(b, rest, threshold, t, usd - room, rate);
    FirstBar(b, rest, cur, threshold, t, usd, room, share, rate);
  }

  lemma {:induction false} FeedOverflows(cur: Option<Bar>, threshold: real, t: Tick, usd: real, ofi: real, room: real,
                                         share: real)
    requires threshold > 0.0 && Partial(cur, threshold) && room == threshold - OpenBar(cur, t).usd && usd > room
    requires share == OfiShare(ofi, room, usd)
    ensures var rest := Feed(None, threshold, t, usd - room, ofi - share);
            Feed(cur, threshold, t, usd, ofi) == ([Apply(OpenBar(cur, t), t, room, share)] + rest.0, rest.1)
  {
  }

  lemma {:induction false} FirstBar(b: Bar, rest: (seq<Bar>, Option<Bar>), cur: Option<Bar>, threshold: real, t: Tick,
                                    usd: real, room: real, share: real, rate: real)
    requires room == (if cur.Some? then threshold - cur.value.usd else threshold)
    requires usd > room && AtRate(share, room, rate)
    requires GrownBy(b, cur, t, room, share) && OwnBars(([b] + rest.0, rest.1), 1, threshold, t, rate)
    ensures GrownBars(([b] + rest.0, rest.1), cur, threshold, t, usd, rate)
  {
  }

  lemma {:induction false} LaterBars(b: Bar, rest: (seq<Bar>, Option<Bar>), threshold: real, t: Tick, usd: real,
                                     rate: real)
    requires GrownBars(rest, None, threshold, t, usd, rate)
    ensures OwnBars(([b] + rest.0, rest.1), 1, threshold, t, rate)
  {
    var all := [b] + rest.0;
    assert forall i :: 0 <= i < |rest.0| ==> all[i + 1] == rest.0[i];
  }

  /* ---- conservation ---- */

  datatype Totals = Totals(usd: real, buyUsd: real, sellUsd: real, crypto: real, ofi: real)

  const NOTHING := Totals(0.0, 0.0, 0.0, 0.0, 0.0)

  function Plus(a: Totals, b: Totals): Totals {
    Totals(a.usd + b.usd, a.buyUsd + b.buyUsd, a.sellUsd + b.sellUsd, a.crypto + b.crypto, a.ofi + b.ofi)
  }

  function OfBar(b: Bar): Totals {
    Totals(b.usd, b.buyUsd, b.sellUsd, b.crypto, b.ofi)
  }

  function OfOpen(cur: Option<Bar>): Totals {
    if cur.Some? then OfBar(cur.value) else NOTHING
  }

  function OfAll(bars: seq<Bar>): Totals {
    if bars == [] then NOTHING else Plus(OfBar(bars[0]), OfAll(bars[1..]))
  }

  function OfTick(t: Tick, usd: real, ofi: real): Totals {
    Totals(usd, if t.isBuy then usd else 0.0, if t.isBuy then 0.0 else usd, Crypto(usd, t.price), ofi)
  }

  lemma {:induction false} CryptoAdds(a: real, b: real, price: real)
    ensures Crypto(a + b, price) == Crypto(a, price) + Crypto(b, price)
  {
    if price > 0.0 {
      assert (a + b) / price == a / price + b / price;
    }
  }

  /**
   Everything a tick with positive dollars brings is in the completed bars or the open one: dollars,
   buy and sell dollars, quantity and order flow imbalance.
   */
  lemma {:induction false} TickIsConserved(cur: Option<Bar>, threshold: real, t: Tick, usd: real, ofi: real)
    requires threshold > 0.0 && Partial(cur, threshold) && usd > 0.0
    ensures Balances(Feed(cur, threshold, t, usd, ofi), OfOpen(cur), OfTick(t, usd, ofi))
    decreases cur.Some?, Fills(usd, threshold)
  {
    var room := threshold - OpenBar(cur, t).usd;
    if usd <= room {
      LastChunk(cur, threshold, t, usd, ofi);
    } else {
      var share := OfiShare(ofi, room, usd);
      DividedDecrease(usd, room, threshold);
      TickIsConserved(None, threshold, t, usd - room, ofi - share);
      FullChunk(cur, threshold, t, usd, ofi);
      TickSplits(t, usd, room, ofi, share);
      ChunkAndRest(Feed(cur, threshold, t, usd, ofi), Apply(OpenBar(cur, t), t, room, share),
                   Feed(None, threshold, t, usd - room, ofi - share),
                   OfOpen(cur), OfTick(t, room, share), OfTick(t, usd - room, ofi - share), OfTick(t, usd, ofi));
    }
  }

  lemma {:induction false} TickSplits(t: Tick, usd: real, room: real, ofi: real, share: real)
    ensures OfTick(t, usd, ofi) == Plus(OfTick(t, room, share), OfTick(t, usd - room, ofi - share))
  {
    OfTickAdds(t, room, usd - room, share, ofi - share);
  }

  /* What came out is what was held and what came in. */
  ghost predicate Balances(out: (seq<Bar>, Option<Bar>), held: Totals, tick: Totals) {
    Plus(OfAll(out.0), OfOpen(out.1)) == Plus(held, tick)
  }

  lemma {:induction false} ChunkAndRest(whole: (seq<Bar>, Option<Bar>), bar: Bar, rest: (seq<Bar>, Option<Bar>),
                                        held: Totals, now: Totals, later: Totals, tick: Totals)
    requires whole == Then([bar], rest) && tick == Plus(now, later)
    requires OfBar(bar) == Plus(held, now) && Balances(rest, NOTHING, later)
    ensures Balances(whole, held, tick)
  {
    OfAllCons(bar, rest.0);
    Recombine(held, now, later, OfAll(rest.0), OfOpen(rest.1));
  }

  lemma {:induction false} Recombine(held: Totals, now: Totals, later: Totals, bars: Totals, last: Totals)
    requires Plus(bars, last) == Plus(NOTHING, later)
    ensures Plus(Plus(Plus(held, now), bars), last) == Plus(held, Plus(now, later))
  {
    PlusAssociates(Plus(held, now), bars, last);
    PlusAssociates(held, now, later);
    assert Plus(NOTHING, later) == later;
  }

  /* The last piece of a tick. */
  lemma {:induction false} LastChunk(cur: Option<Bar>, threshold: real, t: Tick, usd: real, ofi: real)
    requires threshold > 0.0 && Partial(cur, threshold) && 0.0 < usd <= threshold - OpenBar(cur, t).usd
    ensures Balances(Feed(cur, threshold, t, usd, ofi), OfOpen(cur), OfTick(t, usd, ofi))
  {
    ApplyAdds(cur, t, usd, ofi);
    OfAllCons(Apply(OpenBar(cur, t), t, usd, ofi), []);
  }

  lemma {:induction false} ApplyAdds(cur: Option<Bar>, t: Tick, usd: real, ofi: real)
    ensures OfBar(Apply(OpenBar(cur, t), t, usd, ofi)) == Plus(OfOpen(cur), OfTick(t, usd, ofi))
  {
  }

  lemma {:induction false} OfAllCons(b: Bar, rest: seq<Bar>)
    ensures OfAll([b] + rest) == Plus(OfBar(b), OfAll(rest))
    ensures OfAll([b]) == OfBar(b)
  {
    assert ([b] + rest)[1..] == rest && [b][1..] == [];
  }

  /* What is left of a tick after one piece. */
  lemma {:induction false} OfTickAdds(t: Tick, a: real, b: real, o1: real, o2: real)
    ensures Plus(OfTick(t, a, o1), OfTick(t, b, o2)) == OfTick(t, a + b, o1 + o2)
  {
    CryptoAdds(a, b, t.price);
  }

  lemma {:induction false} PlusAssociates(a: Totals, b: Totals, c: Totals)
    ensures Plus(Plus(a, b), c) == Plus(a, Plus(b, c))
  {
  }

  /* A piece that fills a bar, with more of the tick to come. */
  lemma {:induction false} FullChunk(cur: Option<Bar>, threshold: real, t: Tick, usd: real, ofi: real)
    requires threshold > 0.0 && Partial(cur, threshold) && usd > threshold - OpenBar(cur, t).usd
    ensures var room := threshold - OpenBar(cur, t).usd;
            var share := OfiShare(ofi, room, usd);
            var bar := Apply(OpenBar(cur, t), t, room, share);
            var rest := Feed(None, threshold, t, usd - room, ofi - share);
            && Feed(cur, threshold, t, usd, ofi) == Then([bar], rest)
            && OfBar(bar) == Plus(OfOpen(cur), OfTick(t, room, share))
  {
    var room := threshold - OpenBar(cur, t).usd;
    var share := OfiShare(ofi, room, usd);
    DividedDecrease(usd, room, threshold);
    ApplyAdds(cur, t, room, share);
  }

  /* ---- splitting a tick in two ---- */

  /* A bar without the two fields that count or apportion ticks. */
  function Erased(b: Bar): Bar { b.(ticks := 0, ofi := 0.0) }

  ghost predicate SameBars(xs: seq<Bar>, ys: seq<Bar>) {
    |xs| == |ys| && forall i :: 0 <= i < |xs| ==> Erased(xs[i]) == Erased(ys[i])
  }

  ghost predicate SameOpen(x: Option<Bar>, y: Option<Bar>) {
    (x.Some? <==> y.Some?) && (x.Some? ==> Erased(x.value) == Erased(y.value))
  }

  ghost predicate SameOutcome(a: (seq<Bar>, Option<Bar>), b: (seq<Bar>, Option<Bar>)) {
    SameBars(a.0, b.0) && SameOpen(a.1, b.1)
  }

  /** The cut does not depend on tick counts or imbalances. */
  lemma {:induction false} CutIgnoresOfi(x: Option<Bar>, y: Option<Bar>, threshold: real, t: Tick, usd: real,
                                         o1: real, o2: real)
    requires threshold > 0.0 && Partial(x, threshold) && Partial(y, threshold) && SameOpen(x, y)
    ensures SameOutcome(Feed(x, threshold, t, usd, o1), Feed(y, threshold, t, usd, o2))
    decreases x.Some?, Fills(usd, threshold)
  {
    var room := threshold - OpenBar(x, t).usd;
    if usd > room {
      DividedDecrease(usd, room, threshold);
      FullChunk(x, threshold, t, usd, o1);
      FullChunk(y, threshold, t, usd, o2);
      var s1, s2 := OfiShare(o1, room, usd), OfiShare(o2, room, usd);
      CutIgnoresOfi(None, None, threshold, t, usd - room, o1 - s1, o2 - s2);
      SameAfterSame(Apply(OpenBar(x, t), t, room, s1), Apply(OpenBar(y, t), t, room, s2),
                    Feed(None, threshold, t, usd - room, o1 - s1), Feed(None, threshold, t, usd - room, o2 - s2));
    } else {
      CutWithin(x, y, threshold, t, usd, o1, o2);
    }
  }

  lemma {:induction false} CutWithin(x: Option<Bar>, y: Option<Bar>, threshold: real, t: Tick, usd: real, o1: real,
                                     o2: real)
    requires threshold > 0.0 && Partial(x, threshold) && Partial(y, threshold) && SameOpen(x, y)
    requires usd <= threshold - OpenBar(x, t).usd
    ensures SameOutcome(Feed(x, threshold, t, usd, o1), Feed(y, threshold, t, usd, o2))
  {
  }

  lemma {:induction false} SameAfterSame(a: Bar, b: Bar, ra: (seq<Bar>, Option<Bar>), rb: (seq<Bar>, Option<Bar>))
    requires Erased(a) == Erased(b) && SameOutcome(ra, rb)
    ensures SameOutcome(Then([a], ra), Then([b], rb))
  {
  }

  lemma {:induction false} ChunksMerge(b: Bar, t: Tick, a: real, c: real, o1: real, o2: real, o: real)
    ensures Erased(Apply(Apply(b, t, a, o1), t, c, o2)) == Erased(Apply(b, t, a + c, o))
  {
    CryptoAdds(a, c, t.price);
  }

  /** A first part that fits into the open bar, followed by the rest, is the whole. */
  lemma {:induction false} SplitInsideBar(cur: Option<Bar>, threshold: real, t: Tick, a: real, b: real, oa: real,
                                          ob: real, o: real)
    requires threshold > 0.0 && Partial(cur, threshold) && 0.0 < a && 0.0 < b
    requires a < threshold - OpenBar(cur, t).usd
    ensures SameOutcome(Feed(Some(Apply(OpenBar(cur, t), t, a, oa)), threshold, t, b, ob),
                        Feed(cur, threshold, t, a + b, o))
  {
    var bar := OpenBar(cur, t);
    var room := threshold - bar.usd;
    if a + b <= room {
      ChunksMerge(bar, t, a, b, oa, ob, o);
    } else {
      var shareB, share := OfiShare(ob, room - a, b), OfiShare(o, room, a + b);
      ChunksMerge(bar, t, a, room - a, oa, shareB, share);
      assert b - (room - a) == a + b - room;
      CutIgnoresOfi(None, None, threshold, t, a + b - room, ob - shareB, o - share);
    }
  }

  /* The two halves processed one after the other. */
  function Twice(cur: Option<Bar>, threshold: real, t: Tick, a: real, b: real, oa: real, ob: real): (seq<Bar>,
                 Option<Bar>)
    requires threshold > 0.0 && Partial(cur, threshold)
  {
    var first := Feed(cur, threshold, t, a, oa);
    Then(first.0, Feed(first.1, threshold, t, b, ob))
  }

  /** A first part that fills the open bar and goes on, given the result for what goes on. */
  lemma {:induction false} SplitPastBar(cur: Option<Bar>, threshold: real, t: Tick, room: real, a: real, b: real,
                                        oa: real, ob: real, o: real)
    requires threshold > 0.0 && Partial(cur, threshold) && 0.0 < b
    requires room == threshold - OpenBar(cur, t).usd && room < a
    requires SameOutcome(Twice(None, threshold, t, a - room, b, oa - OfiShare(oa, room, a), ob),
                         Feed(None, threshold, t, a - room + b, o - OfiShare(o, room, a + b)))
    ensures SameOutcome(Twice(cur, threshold, t, a, b, oa, ob), Feed(cur, threshold, t, a + b, o))
  {
    var x := Apply(OpenBar(cur, t), t, room, OfiShare(oa, room, a));
    var y := Apply(OpenBar(cur, t), t, room, OfiShare(o, room, a + b));
    var inner := Feed(None, threshold, t, a - room, oa - OfiShare(oa, room, a));
    var rest := Feed(inner.1, threshold, t, b, ob);
    FullChunk(cur, threshold, t, a, oa);
    FullChunk(cur, threshold, t, a + b, o);
    assert a - room + b == a + b - room;
    SameAfterSame(x, y, Then(inner.0, rest), Feed(None, threshold, t, a + b - room, o - OfiShare(o, room, a + b)));
    ThenThen(x, inner.0, rest);
  }

  /** A first part that exactly fills the open bar. */
  lemma {:induction false} SplitAtBar(cur: Option<Bar>, threshold: real, t: Tick, a: real, b: real, oa: real,
                                      ob: real, o: real)
    requires threshold > 0.0 && Partial(cur, threshold) && 0.0 < a && 0.0 < b
    requires a == threshold - OpenBar(cur, t).usd
    ensures SameOutcome(Twice(cur, threshold, t, a, b, oa, ob), Feed(cur, threshold, t, a + b, o))
  {
    var share := OfiShare(o, a, a + b);
    FullChunk(cur, threshold, t, a + b, o);
    CutIgnoresOfi(None, None, threshold, t, b, ob, o - share);
    SameAfterSame(Apply(OpenBar(cur, t), t, a, oa), Apply(OpenBar(cur, t), t, a, share),
                  Feed(None, threshold, t, b, ob), Feed(None, threshold, t, b, o - share));
  }

  /**
   Splitting one tick into two at the same price, side and time gives the same bars, apart from the
   tick count and the apportioned imbalance.
   */
  lemma {:induction false} SplittingATickChangesNothing(cur: Option<Bar>, threshold: real, t: Tick, a: real, b: real,
                                                        oa: real, ob: real, o: real)
    requires threshold > 0.0 && Partial(cur, threshold) && 0.0 < a && 0.0 < b
    ensures SameOutcome(Twice(cur, threshold, t, a, b, oa, ob), Feed(cur, threshold, t, a + b, o))
    decreases cur.Some?, Fills(a, threshold)
  {
    var room := threshold - OpenBar(cur, t).usd;
    if a < room {
      SplitInsideBar(cur, threshold, t, a, b, oa, ob, o);
      var rest := Feed(Some(Apply(OpenBar(cur, t), t, a, oa)), threshold, t, b, ob);
      assert [] + rest.0 == rest.0;
    } else if a == room {
      SplitAtBar(cur, threshold, t, a, b, oa, ob, o);
    } else {
      DividedDecrease(a, room, threshold);
      SplittingATickChangesNothing(None, threshold, t, a - room, b, oa - OfiShare(oa, room, a), ob,
                                   o - OfiShare(o, room, a + b));
      SplitPastBar(cur, threshold, t, room, a, b, oa, ob, o);
    }
  }

  lemma {:induction false} ThenThen(b: Bar, xs: seq<Bar>, rest: (seq<Bar>, Option<Bar>))
    ensures Then([b] + xs, rest) == Then([b], Then(xs, rest))
  {
    assert [b] + xs + rest.0 == [b] + (xs + rest.0);
  }
}
