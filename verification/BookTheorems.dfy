/**
 What the book promises over whole runs: buffering before a snapshot loses nothing, splicing is only
 an optimisation, applied updates leave no hole, and the arrays stand for a price-to-quantity map.
 */
module BookTheorems {
  import opened Options
  import opened Sums
  import opened Levels
  import opened BookSides
  import opened DeltaRings
  import opened NdOrderBooks

  /* Equal in everything a reader of the book can see, the read epoch included; the last reject reason may differ. */
  ghost predicate SameBook(a: Book, b: Book) {
    && a.bids == b.bids && a.asks == b.asks && a.u == b.u && a.lastSeq == b.lastSeq
    && a.ok == b.ok && a.epoch == b.epoch
  }

  function EncodeAll(ds: seq<Delta>): (fs: seq<Frame>)
    ensures |fs| == |ds| && forall i :: 0 <= i < |ds| ==> fs[i] == Encode(ds[i])
  {
    seq(|ds|, i requires 0 <= i < |ds| => Encode(ds[i]))
  }

  /** The updates that a drop-oldest ring still holds after `ds`. */
  function Newest<T>(ds: seq<T>): seq<T> {
    if |ds| > 65536 then ds[|ds| - 65536..] else ds
  }

  /** An unanchored book only buffers, and what it buffers is the newest part of the feed. */
  lemma {:induction false} UnanchoredBuffers(b: Book, ds: seq<Delta>, cap: nat)
    requires b.u == 0 && |b.buf| <= BUFFER_CAPACITY
    ensures var r := IngestAll(b, ds, cap);
            SameBook(r, b) && r.buf == Newest(b.buf + EncodeAll(ds))
    decreases |ds|
  {
    if ds == [] {
      assert b.buf + EncodeAll(ds) == b.buf;
    } else {
      PushKeepsNewest(b.buf, ds);
      UnanchoredBuffers(b.(buf := Pushed(b.buf, Encode(ds[0])), reject := Some(NoSnapshotAnchor)), ds[1..], cap);
    }
  }

  lemma {:induction false} PushKeepsNewest(q: seq<Frame>, ds: seq<Delta>)
    requires |q| <= BUFFER_CAPACITY && ds != []
    ensures Newest(Pushed(q, Encode(ds[0])) + EncodeAll(ds[1..])) == Newest(q + EncodeAll(ds))
  {
    EncodeAllCons(ds);
    PushThenMore(q, Encode(ds[0]), EncodeAll(ds[1..]));
  }

  lemma {:induction false} EncodeAllCons(ds: seq<Delta>)
    requires ds != []
    ensures EncodeAll(ds) == [Encode(ds[0])] + EncodeAll(ds[1..])
  {
  }

  lemma {:induction false} PushThenMore(q: seq<Frame>, f: Frame, rest: seq<Frame>)
    requires |q| <= BUFFER_CAPACITY
    ensures Newest(Pushed(q, f) + rest) == Newest(q + ([f] + rest))
  {
    assert q + ([f] + rest) == q + [f] + rest;
    if |q| == BUFFER_CAPACITY {
      assert Pushed(q, f) + rest == (q + [f] + rest)[1..];
    }
  }

  /** Fast-forwarding past frames that are not newer than the snapshot never changes the result. */
  lemma {:induction false} SkippingOldFrames(a: Book, k: nat, cap: nat)
    requires k <= |a.buf| && forall i :: 0 <= i < k ==> a.buf[i].id <= a.u
    ensures Replay(a.(buf := a.buf[k..]), cap) == Replay(a, cap)
    decreases k
  {
    if k == 0 {
      assert a.buf[0..] == a.buf;
    } else {
      var a1 := a.(buf := a.buf[1..]);
      assert Decode(a.buf[0]).id == a.buf[0].id;
      SkippingOldFrames(a1, k - 1, cap);
      assert a1.buf[k - 1..] == a.buf[k..];
    }
  }

  /** `fast_forward_splice` is only an optimisation of the replay, for buffered ids in any order. */
  lemma {:induction false} SpliceIsTransparent(b: Book, id: int, bids: seq<Quote>, asks: seq<Quote>, cap: nat)
    ensures Snapshot(b, id, bids, asks, cap) == Replay(Anchored(b, id, bids, asks, cap), cap)
  {
    SkippingOldFrames(Anchored(b, id, bids, asks, cap), SpliceCount(b.buf, id), cap);
  }

  /* Present sequence numbers strictly increase along the feed. */
  ghost predicate SeqIncreasing(ds: seq<Delta>) {
    forall i, j :: 0 <= i < j < |ds| && ds[i].sq.Some? && ds[j].sq.Some? ==> ds[i].sq.value < ds[j].sq.value
  }

  ghost predicate SeqAbove(ds: seq<Delta>, last: int) {
    forall i :: 0 <= i < |ds| && ds[i].sq.Some? ==> ds[i].sq.value > last
  }

  /* Updates that the ring stores faithfully. */
  ghost predicate StorableFeed(ds: seq<Delta>) {
    forall i :: 0 <= i < |ds| ==> Storable(ds[i])
  }

  /* Live ingestion of the feed never refuses an update for its sequence number. */
  ghost predicate NeverSeqStale(b: Book, ds: seq<Delta>, cap: nat)
    decreases |ds|
  {
    ds == [] || (Ingest(b, ds[0], cap).reject != Some(StaleSeq) && NeverSeqStale(Ingest(b, ds[0], cap), ds[1..], cap))
  }

  /* Its range is inverted and it is not newer than the book: live it resets the book, replayed it is skipped. */
  predicate Backward(b: Book, d: Delta) {
    b.u > 0 && Inverted(d) && d.id <= b.u
  }

  /* Live ingestion of the feed never meets such an update. */
  ghost predicate NeverBackward(b: Book, ds: seq<Delta>, cap: nat)
    decreases |ds|
  {
    ds == [] || (!Backward(b, ds[0]) && NeverBackward(Ingest(b, ds[0], cap), ds[1..], cap))
  }

  /** Strictly increasing sequence numbers are never refused. */
  lemma {:induction false} IncreasingSeqIsNeverStale(b: Book, ds: seq<Delta>, cap: nat)
    requires SeqIncreasing(ds) && (b.lastSeq > 0 ==> SeqAbove(ds, b.lastSeq))
    ensures NeverSeqStale(b, ds, cap)
    decreases |ds|
  {
    if ds != [] {
      var r, rest := Ingest(b, ds[0], cap), ds[1..];
      assert forall i :: 0 <= i < |rest| ==> rest[i] == ds[i + 1];
      assert ds[0].sq.Some? ==> SeqAbove(rest, ds[0].sq.value);
      IncreasingSeqIsNeverStale(r, rest, cap);
    }
  }

  lemma {:induction false} ResetStaysEmpty(b: Book, ds: seq<Delta>, cap: nat)
    requires b.u == 0
    ensures SameBook(IngestAll(b, ds, cap), b)
    decreases |ds|
  {
    if ds != [] {
      ResetStaysEmpty(Ingest(b, ds[0], cap), ds[1..], cap);
    }
  }

  /** Replaying buffered frames and ingesting the same updates live take the book to the same place. */
  lemma {:induction false} ReplayIsLiveIngest(a: Book, c: Book, ds: seq<Delta>, cap: nat)
    requires SameBook(a, c) && c.u > 0 && a.buf == EncodeAll(ds)
    requires StorableFeed(ds) && NeverSeqStale(c, ds, cap) && NeverBackward(c, ds, cap)
    ensures SameBook(Replay(a, cap), IngestAll(c, ds, cap))
    decreases |ds|
  {
    if ds != [] {
      var d, rest := ds[0], ds[1..];
      StoreRoundTrip(d);
      var a1 := a.(buf := a.buf[1..]);
      assert a1.buf == EncodeAll(rest);
      assert a.buf[0] == Encode(d);
      assert StorableFeed(rest);
      if d.id <= a.u {
        ReplayIsLiveIngest(a1, Ingest(c, d, cap), rest, cap);
      } else if Gap(a, d) {
        ResetStaysEmpty(Ingest(c, d, cap), rest, cap);
      } else {
        assert !SeqStale(c, d);
        ReplayIsLiveIngest(Applied(a1, d, cap), Ingest(c, d, cap), rest, cap);
      }
    }
  }

  lemma {:induction false} NewestEncoded(ds: seq<Delta>)
    ensures Newest(EncodeAll(ds)) == EncodeAll(Newest(ds))
  {
  }

  /* A snapshot after a feed replays the newest part of it. */
  lemma {:induction false} SnapshotAfterFeed(b: Book, ds: seq<Delta>, id: int, bids: seq<Quote>, asks: seq<Quote>,
                                             cap: nat)
    requires b.u == 0 && b.buf == []
    ensures Snapshot(IngestAll(b, ds, cap), id, bids, asks, cap)
         == Replay(Anchored(b, id, bids, asks, cap).(buf := EncodeAll(Newest(ds))), cap)
  {
    UnanchoredBuffers(b, ds, cap);
    assert [] + EncodeAll(ds) == EncodeAll(ds);
    NewestEncoded(ds);
    ReplayAfterFeed(b, IngestAll(b, ds, cap), EncodeAll(Newest(ds)), id, bids, asks, cap);
  }

  lemma {:induction false} ReplayAfterFeed(b: Book, fed: Book, q: seq<Frame>, id: int, bids: seq<Quote>,
                                           asks: seq<Quote>,
                                           cap: nat)
    requires SameBook(fed, b) && fed.buf == q
    ensures Snapshot(fed, id, bids, asks, cap) == Replay(Anchored(b, id, bids, asks, cap).(buf := q), cap)
  {
    SpliceIsTransparent(fed, id, bids, asks, cap);
    assert Anchored(fed, id, bids, asks, cap) == Anchored(b, id, bids, asks, cap).(buf := q);
  }

  /**
   Buffering commutes with anchoring: feeding updates to an unanchored book and then anchoring it
   gives the book that is anchored first and fed live, for the updates the ring still holds, provided
   live ingestion refuses none of them for its sequence number and meets no inverted range at or below
   its id. Gaps, and inverted ranges above the id, are allowed: both orders then end in the same
   invalidated book.
   */
  lemma {:induction false} BufferingCommutesWithAnchoring(b: Book, ds: seq<Delta>, id: int, bids: seq<Quote>,
                                                          asks: seq<Quote>, cap: nat)
    requires b.u == 0 && b.buf == [] && id > 0 && StorableFeed(ds)
    requires NeverSeqStale(Snapshot(b, id, bids, asks, cap), Newest(ds), cap)
    requires NeverBackward(Snapshot(b, id, bids, asks, cap), Newest(ds), cap)
    ensures SameBook(Snapshot(IngestAll(b, ds, cap), id, bids, asks, cap),
                     IngestAll(Snapshot(b, id, bids, asks, cap), Newest(ds), cap))
  {
    SnapshotAfterFeed(b, ds, id, bids, asks, cap);
    SnapshotAfterFeed(b, [], id, bids, asks, cap);
    var start := Anchored(b, id, bids, asks, cap);
    assert EncodeAll(Newest([])) == [] && start.(buf := []) == start;
    ReplayIsLiveIngest(start.(buf := EncodeAll(Newest(ds))), start, Newest(ds), cap);
  }

  /** In particular with strictly increasing sequence numbers, and for the whole feed when it fits the ring. */
  lemma {:induction false} IncreasingFeedsCommute(b: Book, ds: seq<Delta>, id: int, bids: seq<Quote>, asks: seq<Quote>,
                                                  cap: nat)
    requires b.u == 0 && b.buf == [] && id > 0 && StorableFeed(ds) && SeqIncreasing(ds)
    requires NeverBackward(Snapshot(b, id, bids, asks, cap), Newest(ds), cap)
    ensures SameBook(Snapshot(IngestAll(b, ds, cap), id, bids, asks, cap),
                     IngestAll(Snapshot(b, id, bids, asks, cap), Newest(ds), cap))
    ensures |ds| <= BUFFER_CAPACITY ==>
              SameBook(Snapshot(IngestAll(b, ds, cap), id, bids, asks, cap),
                       IngestAll(Snapshot(b, id, bids, asks, cap), ds, cap))
  {
    SpliceIsTransparent(b, id, bids, asks, cap);
    assert SeqIncreasing(Newest(ds));
    IncreasingSeqIsNeverStale(Snapshot(b, id, bids, asks, cap), Newest(ds), cap);
    BufferingCommutesWithAnchoring(b, ds, id, bids, asks, cap);
  }

  ghost predicate Commute(b: Book, ds: seq<Delta>, id: int, bids: seq<Quote>, asks: seq<Quote>, cap: nat) {
    SameBook(Snapshot(IngestAll(b, ds, cap), id, bids, asks, cap), IngestAll(Snapshot(b, id, bids, asks, cap), ds, cap))
  }

  /* Both orders agree after every part of the feed. */
  ghost predicate CommuteThroughout(b: Book, ds: seq<Delta>, id: int, bids: seq<Quote>, asks: seq<Quote>, cap: nat) {
    forall part :: part <= ds ==> Commute(b, part, id, bids, asks, cap)
  }

  /* The two orders part at this update. */
  ghost predicate Parts(b: Book, d: Delta, cap: nat) {
    Ingest(b, d, cap).reject == Some(StaleSeq) || Backward(b, d)
  }

  lemma {:induction false} NeverPartUpTo(b: Book, ds: seq<Delta>, part: seq<Delta>, cap: nat)
    requires part <= ds && NeverSeqStale(b, ds, cap) && NeverBackward(b, ds, cap)
    ensures NeverSeqStale(b, part, cap) && NeverBackward(b, part, cap)
    decreases |part|
  {
    if part != [] {
      NeverPartUpTo(Ingest(b, ds[0], cap), ds[1..], part[1..], cap);
    }
  }

  /* The first update at which they part, and what came before it. */
  lemma {:induction false} FirstParting(b: Book, ds: seq<Delta>, cap: nat) returns (earlier: seq<Delta>, d: Delta)
    requires !(NeverSeqStale(b, ds, cap) && NeverBackward(b, ds, cap))
    ensures earlier + [d] <= ds && NeverSeqStale(b, earlier, cap) && NeverBackward(b, earlier, cap)
    ensures Parts(IngestAll(b, earlier, cap), d, cap)
    decreases |ds|
  {
    if Parts(b, ds[0], cap) {
      earlier, d := [], ds[0];
    } else {
      var later;
      later, d := FirstParting(Ingest(b, ds[0], cap), ds[1..], cap);
      earlier := [ds[0]] + later;
      assert earlier[1..] == later && earlier + [d] == [ds[0]] + (later + [d]);
    }
  }

  lemma {:induction false} IngestAllSnoc(b: Book, ds: seq<Delta>, d: Delta, cap: nat)
    ensures IngestAll(b, ds + [d], cap) == Ingest(IngestAll(b, ds, cap), d, cap)
    decreases |ds|
  {
    if ds == [] {
      assert [] + [d] == [d] && [d][1..] == [];
    } else {
      IngestAllSnoc(Ingest(b, ds[0], cap), ds[1..], d, cap);
      assert (ds + [d])[1..] == ds[1..] + [d];
    }
  }

  /* The replay of one more frame on a book that is still usable: the same frame on top of the replay. */
  lemma {:induction false} ReplaySnoc(a: Book, f: Frame, cap: nat)
    requires a.u > 0 && Replay(a, cap).u > 0
    ensures var r := Replay(a, cap);
            var d := Decode(f);
            Replay(a.(buf := a.buf + [f]), cap) ==
              if d.id <= r.u then r
              else if Gap(r, d) then HardReset(r.(reject := Some(SequenceGap)))
              else Applied(r, d, cap)
    decreases |a.buf|
  {
    var longer := a.(buf := a.buf + [f]);
    if a.buf == [] {
      assert longer.buf == [f] && longer.buf[1..] == [];
      var d := Decode(f);
      if d.id > a.u && !Gap(a, d) {
        assert Replay(Applied(a, d, cap), cap) == Applied(a, d, cap);
      }
    } else {
      var d, rest := Decode(a.buf[0]), a.(buf := a.buf[1..]);
      assert longer.buf[1..] == rest.buf + [f];
      if d.id <= a.u {
        ReplaySnoc(rest, f, cap);
      } else {
        ReplaySnoc(Applied(rest, d, cap), f, cap);
      }
    }
  }

  /**
   The two orders agree after every part of a feed that fits the ring exactly when live ingestion never
   refuses an update for its sequence number and never meets an inverted range at or below its id.
   */
  lemma {:induction false} CommuteExactly(b: Book, ds: seq<Delta>, id: int, bids: seq<Quote>,
                                          asks: seq<Quote>, cap: nat)
    requires b.u == 0 && b.buf == [] && id > 0 && StorableFeed(ds) && |ds| <= BUFFER_CAPACITY
    ensures CommuteThroughout(b, ds, id, bids, asks, cap)
            <==> NeverSeqStale(Snapshot(b, id, bids, asks, cap), ds, cap)
                 && NeverBackward(Snapshot(b, id, bids, asks, cap), ds, cap)
  {
    var c := Snapshot(b, id, bids, asks, cap);
    if NeverSeqStale(c, ds, cap) && NeverBackward(c, ds, cap) {
      NeverPartingCommutes(b, ds, c, id, bids, asks, cap);
    } else {
      PartingEndsCommuting(b, ds, c, id, bids, asks, cap);
    }
  }

  lemma {:induction false} NeverPartingCommutes(b: Book, ds: seq<Delta>, c: Book, id: int, bids: seq<Quote>,
                                                asks: seq<Quote>, cap: nat)
    requires b.u == 0 && b.buf == [] && id > 0 && StorableFeed(ds) && |ds| <= BUFFER_CAPACITY
    requires c == Snapshot(b, id, bids, asks, cap) && NeverSeqStale(c, ds, cap) && NeverBackward(c, ds, cap)
    ensures CommuteThroughout(b, ds, id, bids, asks, cap)
  {
    forall part | part <= ds
      ensures Commute(b, part, id, bids, asks, cap)
    {
      NeverPartUpTo(c, ds, part, cap);
      PartCommutes(b, part, id, bids, asks, cap);
    }
  }

  lemma {:induction false} PartingEndsCommuting(b: Book, ds: seq<Delta>, c: Book, id: int, bids: seq<Quote>,
                                                asks: seq<Quote>, cap: nat)
    requires b.u == 0 && b.buf == [] && id > 0 && StorableFeed(ds) && |ds| <= BUFFER_CAPACITY
    requires c == Snapshot(b, id, bids, asks, cap) && !(NeverSeqStale(c, ds, cap) && NeverBackward(c, ds, cap))
    ensures !CommuteThroughout(b, ds, id, bids, asks, cap)
  {
    var earlier, d := FirstParting(c, ds, cap);
    StorableParts(ds, earlier, d);
    PartingSeparates(b, earlier, d, id, bids, asks, cap);
  }

  lemma {:induction false} StorableParts(ds: seq<Delta>, earlier: seq<Delta>, d: Delta)
    requires StorableFeed(ds) && earlier + [d] <= ds
    ensures StorableFeed(earlier) && Storable(d) && |earlier| < |ds|
  {
    assert ds[|earlier|] == (earlier + [d])[|earlier|] == d;
    assert forall i :: 0 <= i < |earlier| ==> ds[i] == (earlier + [d])[i] == earlier[i];
  }

  lemma {:induction false} PartCommutes(b: Book, part: seq<Delta>, id: int, bids: seq<Quote>,
                                        asks: seq<Quote>, cap: nat)
    requires b.u == 0 && b.buf == [] && id > 0 && StorableFeed(part) && |part| <= BUFFER_CAPACITY
    requires NeverSeqStale(Snapshot(b, id, bids, asks, cap), part, cap)
    requires NeverBackward(Snapshot(b, id, bids, asks, cap), part, cap)
    ensures Commute(b, part, id, bids, asks, cap)
  {
    BufferingCommutesWithAnchoring(b, part, id, bids, asks, cap);
  }

  lemma {:induction false} PartingSeparates(b: Book, earlier: seq<Delta>, d: Delta, id: int, bids: seq<Quote>,
                                            asks: seq<Quote>, cap: nat)
    requires b.u == 0 && b.buf == [] && id > 0 && |earlier| < BUFFER_CAPACITY
    requires StorableFeed(earlier) && Storable(d)
    requires NeverSeqStale(Snapshot(b, id, bids, asks, cap), earlier, cap)
    requires NeverBackward(Snapshot(b, id, bids, asks, cap), earlier, cap)
    requires Parts(IngestAll(Snapshot(b, id, bids, asks, cap), earlier, cap), d, cap)
    ensures !Commute(b, earlier + [d], id, bids, asks, cap)
  {
    var c := Snapshot(b, id, bids, asks, cap);
    assert Newest(earlier) == earlier;
    BufferingCommutesWithAnchoring(b, earlier, id, bids, asks, cap);
    IngestAllSnoc(c, earlier, d, cap);
    OneMoreBuffered(b, earlier, d, IngestAll(c, earlier, cap), id, bids, asks, cap);
  }

  lemma {:induction false} OneMoreBuffered(b: Book, earlier: seq<Delta>, d: Delta, live: Book, id: int,
                                           bids: seq<Quote>, asks: seq<Quote>, cap: nat)
    requires b.u == 0 && b.buf == [] && id > 0 && |earlier| < BUFFER_CAPACITY && Storable(d)
    requires SameBook(Snapshot(IngestAll(b, earlier, cap), id, bids, asks, cap), live)
    requires Parts(live, d, cap)
    ensures Snapshot(IngestAll(b, earlier + [d], cap), id, bids, asks, cap).u != Ingest(live, d, cap).u
  {
    SnapshotAfterFeed(b, earlier, id, bids, asks, cap);
    SnapshotAfterFeed(b, earlier + [d], id, bids, asks, cap);
    assert EncodeAll(earlier + [d]) == EncodeAll(earlier) + [Encode(d)];
    OneMoreFrame(Anchored(b, id, bids, asks, cap).(buf := EncodeAll(earlier)), live, d, cap);
  }

  /* The replay applies what live ingestion refuses for its sequence number, and skips what resets it. */
  lemma {:induction false} OneMoreFrame(a: Book, live: Book, d: Delta, cap: nat)
    requires a.u > 0 && SameBook(Replay(a, cap), live) && Storable(d)
    requires Parts(live, d, cap)
    ensures Replay(a.(buf := a.buf + [Encode(d)]), cap).u != Ingest(live, d, cap).u
  {
    StoreRoundTrip(d);
    IdsStayPositive(a, cap);
    ReplaySnoc(a, Encode(d), cap);
  }

  /* A book never gets a negative id. */
  lemma {:induction false} IdsStayPositive(a: Book, cap: nat)
    requires a.u > 0
    ensures Replay(a, cap).u >= 0
    decreases |a.buf|
  {
    if a.buf != [] {
      var d, rest := Decode(a.buf[0]), a.(buf := a.buf[1..]);
      if d.id <= a.u {
        IdsStayPositive(rest, cap);
      } else if !Gap(a, d) {
        IdsStayPositive(Applied(rest, d, cap), cap);
      }
    }
  }

  /**
   The increasing sequence numbers are needed: the live path refuses a repeated sequence number, the
   replay does not look at it.
   */
  lemma {:induction false} RepeatedSeqBreaksCommuting(cap: nat)
    ensures var ds := [Delta(6, None, Some(5), [], []), Delta(7, None, Some(5), [], [])];
            && Snapshot(IngestAll(EMPTY_BOOK, ds, cap), 5, [], [], cap).u == 7
            && IngestAll(Snapshot(EMPTY_BOOK, 5, [], [], cap), ds, cap).u == 6
  {
    var d1, d2 := Delta(6, None, Some(5), [], []), Delta(7, None, Some(5), [], []);
    var ds := [d1, d2];
    StoreRoundTrip(d1);
    StoreRoundTrip(d2);
    UnanchoredBuffers(EMPTY_BOOK, ds, cap);
    var buffered := IngestAll(EMPTY_BOOK, ds, cap);
    assert buffered.buf == [Encode(d1), Encode(d2)];
    SpliceIsTransparent(buffered, 5, [], [], cap);
    var a := Anchored(buffered, 5, [], [], cap);
    var a1 := Applied(a.(buf := a.buf[1..]), d1, cap);
    var a2 := Applied(a1.(buf := a1.buf[1..]), d2, cap);
    assert Replay(a, cap) == Replay(a1, cap) == Replay(a2, cap) == a2;
    SpliceIsTransparent(EMPTY_BOOK, 5, [], [], cap);
    var c := Anchored(EMPTY_BOOK, 5, [], [], cap);
    var c1 := Ingest(c, d1, cap);
    assert ds[1..] == [d2] && ds[1..][1..] == [];
    assert IngestAll(c, ds, cap) == IngestAll(c1, [d2], cap) == Ingest(c1, d2, cap);
  }

  /** An inverted range that is not newer than the snapshot: skipped in replay, it resets the live book. */
  lemma {:induction false} InvertedRangeBreaksCommuting(cap: nat)
    ensures var ds := [Delta(4, Some(10), None, [], [])];
            && Snapshot(IngestAll(EMPTY_BOOK, ds, cap), 5, [], [], cap).u == 5
            && IngestAll(Snapshot(EMPTY_BOOK, 5, [], [], cap), ds, cap).u == 0
  {
    var d := Delta(4, Some(10), None, [], []);
    var ds, c := [d], Anchored(EMPTY_BOOK, 5, [], [], cap);
    StoreRoundTrip(d);
    SnapshotAfterFeed(EMPTY_BOOK, ds, 5, [], [], cap);
    SpliceIsTransparent(EMPTY_BOOK, 5, [], [], cap);
    assert Newest(ds) == ds && EncodeAll(ds) == [Encode(d)] && [Encode(d)][1..] == [];
    assert Replay(c.(buf := [Encode(d)]), cap) == Replay(c.(buf := []), cap);
    assert ds[1..] == [] && IngestAll(c, ds, cap) == IngestAll(Ingest(c, d, cap), [], cap);
  }

  /* ---- what buffering does to a feed ---- */

  /** The feed as the ring gives it back. */
  function Stored(ds: seq<Delta>): (r: seq<Delta>)
    ensures |r| == |ds| && forall i :: 0 <= i < |ds| ==> r[i] == Decode(Encode(ds[i]))
  {
    seq(|ds|, i requires 0 <= i < |ds| => Decode(Encode(ds[i])))
  }

  /* What has been stored once is stored faithfully. */
  lemma {:induction false} StoredIsStorable(d: Delta)
    ensures Storable(Decode(Encode(d))) && Encode(Decode(Encode(d))) == Encode(d)
  {
  }

  /**
   For any feed at all, buffer-then-anchor is anchor-then-feed for the feed as the ring gives it back:
   ids taken modulo 2^64, colliding sentinels lost, and rows past the fiftieth of a side cut off.
   */
  lemma {:induction false} AnyFeedCommutesAsStored(b: Book, ds: seq<Delta>, id: int, bids: seq<Quote>, asks: seq<Quote>,
                                                   cap: nat)
    requires b.u == 0 && b.buf == [] && id > 0
    requires NeverSeqStale(Snapshot(b, id, bids, asks, cap), Newest(Stored(ds)), cap)
    requires NeverBackward(Snapshot(b, id, bids, asks, cap), Newest(Stored(ds)), cap)
    ensures SameBook(Snapshot(IngestAll(b, ds, cap), id, bids, asks, cap),
                     IngestAll(Snapshot(b, id, bids, asks, cap), Newest(Stored(ds)), cap))
    ensures StorableFeed(ds) ==> Stored(ds) == ds
  {
    forall i | 0 <= i < |ds|
      ensures Storable(Stored(ds)[i]) && Encode(Stored(ds)[i]) == Encode(ds[i])
      ensures Storable(ds[i]) ==> Stored(ds)[i] == ds[i]
    {
      StoredIsStorable(ds[i]);
      StoreRoundTrip(ds[i]);
    }
    assert EncodeAll(Stored(ds)) == EncodeAll(ds);
    NewestEncoded(ds);
    NewestEncoded(Stored(ds));
    SnapshotAfterFeed(b, ds, id, bids, asks, cap);
    SnapshotAfterFeed(b, Stored(ds), id, bids, asks, cap);
    BufferingCommutesWithAnchoring(b, Stored(ds), id, bids, asks, cap);
  }

  lemma {:induction false} DeletingNothing(rows: seq<Row>, cap: nat)
    requires forall i :: 0 <= i < |rows| ==> rows[i].qty <= 0
    ensures ApplyRows([], rows, cap) == []
    decreases |rows|
  {
    if rows != [] {
      DeletingNothing(rows[1..], cap);
    }
  }

  /* One update on an empty snapshot, replayed and live. */
  lemma {:induction false} OneUpdateReplayed(d: Delta, cap: nat)
    requires Encode(d).id > 5 && d.lo == None
    ensures Snapshot(IngestAll(EMPTY_BOOK, [d], cap), 5, [], [], cap).bids
         == ApplyRows([], BidRows(Decode(Encode(d)).bids), cap)
  {
    var c, q := Anchored(EMPTY_BOOK, 5, [], [], cap), [Encode(d)];
    SnapshotAfterFeed(EMPTY_BOOK, [d], 5, [], [], cap);
    assert Newest([d]) == [d] && EncodeAll([d]) == q && q[1..] == [];
    var replayed := Applied(c.(buf := []), Decode(q[0]), cap);
    assert Replay(c.(buf := q), cap) == Replay(replayed, cap) == replayed;
  }

  lemma {:induction false} OneUpdateLive(d: Delta, cap: nat)
    requires d.id > 5 && d.lo == None && d.sq == None
    ensures IngestAll(Snapshot(EMPTY_BOOK, 5, [], [], cap), [d], cap).bids == ApplyRows([], BidRows(d.bids), cap)
  {
    var c := Anchored(EMPTY_BOOK, 5, [], [], cap);
    SpliceIsTransparent(EMPTY_BOOK, 5, [], [], cap);
    assert [d][1..] == [] && IngestAll(c, [d], cap) == IngestAll(Ingest(c, d, cap), [], cap);
  }

  /** Whatever the first fifty rows delete, the fifty-first row of a side is lost by buffering and kept live. */
  lemma {:induction false} LongUpdatesAreCut(deleted: seq<Quote>, last: Quote, cap: nat)
    requires |deleted| == MAX_ROWS && last.qty > 0 && cap > 0
    requires forall i :: 0 <= i < |deleted| ==> deleted[i].qty <= 0
    ensures var d := Delta(6, None, None, deleted + [last], []);
            && Snapshot(IngestAll(EMPTY_BOOK, [d], cap), 5, [], [], cap).bids == []
            && IngestAll(Snapshot(EMPTY_BOOK, 5, [], [], cap), [d], cap).bids == [Level(-last.price, last.qty)]
  {
    var d := Delta(6, None, None, deleted + [last], []);
    OneUpdateReplayed(d, cap);
    OneUpdateLive(d, cap);
    assert Decode(Encode(d)).bids == deleted;
    RowsOfLongUpdate(deleted, last, cap);
  }

  lemma {:induction false} RowsOfLongUpdate(deleted: seq<Quote>, last: Quote, cap: nat)
    requires last.qty > 0 && cap > 0 && forall i :: 0 <= i < |deleted| ==> deleted[i].qty <= 0
    ensures ApplyRows([], BidRows(deleted), cap) == []
    ensures ApplyRows([], BidRows(deleted + [last]), cap) == [Level(-last.price, last.qty)]
  {
    DeletingNothing(BidRows(deleted), cap);
    assert BidRows(deleted + [last]) == BidRows(deleted) + [Row(-last.price, last.qty)];
    ApplyRowsConcat([], BidRows(deleted), [Row(-last.price, last.qty)], cap);
    OneRow(Row(-last.price, last.qty), cap);
  }

  lemma {:induction false} OneRow(row: Row, cap: nat)
    requires row.qty > 0 && cap > 0
    ensures ApplyRows([], [row], cap) == [Level(row.key, row.qty)]
  {
    assert [row][1..] == [] && ApplyRows([], [row], cap) == ApplyRows(ApplyRow([], row, cap), [], cap);
  }

  /* ---- where one update lands ---- */

  /**
   A hole or an inverted range leaves a book as new under the next read epoch, with nothing buffered; an older id
   or sequence number leaves it alone; any other update moves it to its id and sequence number.
   */
  lemma {:induction false} DeltaLands(b: Book, d: Delta, cap: nat)
    requires b.u > 0
    ensures var r := Ingest(b, d, cap);
            var inverted, hole := d.lo.Some? && d.id < d.lo.value, d.lo.Some? && d.lo.value > b.u + 1;
            var repeated := d.sq.Some? && b.lastSeq > 0 && d.sq.value <= b.lastSeq;
            && (inverted ==> r == Book([], [], 0, 0, Some(InvalidRange), false, b.epoch + 1, []))
            && (!inverted && d.id <= b.u ==> r == b.(reject := Some(StaleId)))
            && (!inverted && d.id > b.u && hole ==>
                  r == Book([], [], 0, 0, Some(SequenceGap), false, b.epoch + 1, []))
            && (!inverted && d.id > b.u && !hole && repeated ==> r == b.(reject := Some(StaleSeq)))
            && (!inverted && d.id > b.u && !hole && !repeated ==>
                  r == b.(bids := r.bids, asks := r.asks, u := d.id, reject := None,
                          lastSeq := if d.sq.Some? then d.sq.value else b.lastSeq))
  {
  }

  /** A snapshot anchors any book at its id under the next read epoch, usable and without a sequence number. */
  lemma {:induction false} SnapshotLands(b: Book, id: int, bids: seq<Quote>, asks: seq<Quote>, cap: nat)
    requires b.buf == []
    ensures var r := Snapshot(b, id, bids, asks, cap);
            r == Book(r.bids, r.asks, id, 0, None, true, b.epoch + 1, [])
  {
    SpliceIsTransparent(b, id, bids, asks, cap);
  }

  /* ---- no hole in what was applied ---- */

  /** The updates that the replay applies. */
  function Replayed(b: Book, cap: nat): seq<Delta>
    decreases |b.buf|
  {
    if b.buf == [] then []
    else
      var d := Decode(b.buf[0]);
      var b1 := b.(buf := b.buf[1..]);
      if d.id <= b.u then Replayed(b1, cap)
      else if Gap(b, d) then []
      else [d] + Replayed(Applied(b1, d, cap), cap)
  }

  /** The updates that live ingestion applies. */
  function Accepted(b: Book, ds: seq<Delta>, cap: nat): seq<Delta>
    decreases |ds|
  {
    if ds == [] then []
    else
      var r := Ingest(b, ds[0], cap);
      (if r.reject == None then [ds[0]] else []) + Accepted(r, ds[1..], cap)
  }

  ghost predicate Covers(ds: seq<Delta>, n: int) {
    exists i :: 0 <= i < |ds| && ds[i].lo.Some? && ds[i].lo.value <= n <= ds[i].id
  }

  ghost predicate CoversAll(ds: seq<Delta>, from: int, to: int) {
    forall n :: from < n <= to ==> Covers(ds, n)
  }

  lemma {:induction false} CoverExtends(d: Delta, ds: seq<Delta>, from: int, to: int)
    requires CoversAll(ds, d.id, to) && d.lo.Some? && d.lo.value <= from + 1
    ensures CoversAll([d] + ds, from, to)
  {
    forall n | from < n <= to
      ensures Covers([d] + ds, n)
    {
      if n <= d.id {
        assert ([d] + ds)[0] == d;
      } else {
        assert Covers(ds, n);
        var i :| 0 <= i < |ds| && ds[i].lo.Some? && ds[i].lo.value <= n <= ds[i].id;
        assert ([d] + ds)[i + 1] == ds[i];
      }
    }
  }

  /**
   When every buffered update carries its range, a replay that ends in a usable book has applied
   ranges covering every id after the snapshot up to the last update; a hole ends in an empty book.
   */
  lemma {:induction false} ReplayLeavesNoHole(b: Book, cap: nat)
    requires b.u > 0 && b.ok
    requires forall i :: 0 <= i < |b.buf| ==> b.buf[i].lo != -1
    ensures var r := Replay(b, cap);
            if r.ok then r.u >= b.u && CoversAll(Replayed(b, cap), b.u, r.u)
            else r.bids == [] && r.asks == [] && r.u == 0
    decreases |b.buf|
  {
    if b.buf != [] {
      var d := Decode(b.buf[0]);
      var b1 := b.(buf := b.buf[1..]);
      if d.id <= b.u {
        ReplayLeavesNoHole(b1, cap);
      } else if !Gap(b, d) {
        var b2 := Applied(b1, d, cap);
        ReplayLeavesNoHole(b2, cap);
        if Replay(b2, cap).ok {
          CoverExtends(d, Replayed(b2, cap), b.u, Replay(b2, cap).u);
        }
      }
    }
  }

  /** The same for live ingestion into an anchored book. */
  lemma {:induction false} LiveLeavesNoHole(b: Book, ds: seq<Delta>, cap: nat)
    requires b.ok ==> b.u > 0
    requires !b.ok ==> b.u == 0 && b.bids == [] && b.asks == []
    requires forall i :: 0 <= i < |ds| ==> ds[i].lo.Some?
    ensures var r := IngestAll(b, ds, cap);
            if r.ok then r.u >= b.u && CoversAll(Accepted(b, ds, cap), b.u, r.u)
            else r.bids == [] && r.asks == [] && r.u == 0
    decreases |ds|
  {
    if ds != [] {
      var r := Ingest(b, ds[0], cap);
      if b.u == 0 {
        ResetStaysEmpty(b, ds, cap);
      } else {
        LiveLeavesNoHole(r, ds[1..], cap);
        if !r.ok {
          ResetStaysEmpty(r, ds[1..], cap);
        }
        if r.reject == None && IngestAll(r, ds[1..], cap).ok {
          CoverExtends(ds[0], Accepted(r, ds[1..], cap), b.u, IngestAll(r, ds[1..], cap).u);
        } else if r.reject != None {
          assert Accepted(b, ds, cap) == Accepted(r, ds[1..], cap);
        }
      }
    }
  }

  /* ---- the arrays stand for a map ---- */

  function AllBidRows(ds: seq<Delta>): seq<Row> {
    if ds == [] then [] else BidRows(ds[0].bids) + AllBidRows(ds[1..])
  }

  function AllAskRows(ds: seq<Delta>): seq<Row> {
    if ds == [] then [] else AskRows(ds[0].asks) + AllAskRows(ds[1..])
  }

  lemma {:induction false} ApplyRowsConcat(s: seq<Level>, r1: seq<Row>, r2: seq<Row>, cap: nat)
    ensures ApplyRows(s, r1 + r2, cap) == ApplyRows(ApplyRows(s, r1, cap), r2, cap)
    decreases |r1|
  {
    if r1 == [] {
      assert r1 + r2 == r2;
    } else {
      assert (r1 + r2)[0] == r1[0] && (r1 + r2)[1..] == r1[1..] + r2;
      ApplyRowsConcat(ApplyRow(s, r1[0], cap), r1[1..], r2, cap);
    }
  }

  /** While the book stays usable, its sides are the snapshot's with the accepted rows folded in. */
  lemma {:induction false} SidesAreFoldsOfAccepted(b: Book, ds: seq<Delta>, cap: nat)
    requires b.ok && b.u > 0 && IngestAll(b, ds, cap).ok
    ensures var r, acc := IngestAll(b, ds, cap), Accepted(b, ds, cap);
            && r.bids == ApplyRows(b.bids, AllBidRows(acc), cap)
            && r.asks == ApplyRows(b.asks, AllAskRows(acc), cap)
    decreases |ds|
  {
    if ds != [] {
      var r := Ingest(b, ds[0], cap);
      if !r.ok {
        ResetStaysEmpty(r, ds[1..], cap);
      }
      SidesAreFoldsOfAccepted(r, ds[1..], cap);
      IngestedSides(b, ds[0], cap);
      FoldOneMore(b, r, ds[0], Accepted(r, ds[1..], cap), cap);
    }
  }

  /* What an update does to the sides of a book that stays usable. */
  ghost predicate MovesSides(b: Book, r: Book, d: Delta, cap: nat) {
    if r.reject == None
    then r.bids == ApplyRows(b.bids, BidRows(d.bids), cap) && r.asks == ApplyRows(b.asks, AskRows(d.asks), cap)
    else r.bids == b.bids && r.asks == b.asks
  }

  lemma {:induction false} IngestedSides(b: Book, d: Delta, cap: nat)
    requires b.u > 0 && Ingest(b, d, cap).ok
    ensures MovesSides(b, Ingest(b, d, cap), d, cap)
  {
    if Ingest(b, d, cap).reject == None {
      assert Ingest(b, d, cap) == Applied(b.(reject := None), d, cap);
    } else {
      assert Ingest(b, d, cap) == b.(reject := Ingest(b, d, cap).reject);
    }
  }

  /* The rows of one ingested update in front of the rows of the later ones. */
  lemma {:induction false} FoldOneMore(b: Book, r: Book, d: Delta, acc: seq<Delta>, cap: nat)
    requires MovesSides(b, r, d, cap)
    ensures var all := (if r.reject == None then [d] else []) + acc;
            && ApplyRows(r.bids, AllBidRows(acc), cap) == ApplyRows(b.bids, AllBidRows(all), cap)
            && ApplyRows(r.asks, AllAskRows(acc), cap) == ApplyRows(b.asks, AllAskRows(all), cap)
  {
    if r.reject == None {
      AllRowsCons(d, acc);
      FoldSide(b.bids, r.bids, BidRows(d.bids), AllBidRows(acc), cap);
      FoldSide(b.asks, r.asks, AskRows(d.asks), AllAskRows(acc), cap);
    } else {
      assert [] + acc == acc;
    }
  }

  lemma {:induction false} AllRowsCons(d: Delta, acc: seq<Delta>)
    ensures AllBidRows([d] + acc) == BidRows(d.bids) + AllBidRows(acc)
    ensures AllAskRows([d] + acc) == AskRows(d.asks) + AllAskRows(acc)
  {
    assert ([d] + acc)[0] == d && ([d] + acc)[1..] == acc;
  }

  lemma {:induction false} FoldSide(before: seq<Level>, after: seq<Level>, rows: seq<Row>, later: seq<Row>, cap: nat)
    requires after == ApplyRows(before, rows, cap)
    ensures ApplyRows(after, later, cap) == ApplyRows(before, rows + later, cap)
  {
    ApplyRowsConcat(before, rows, later, cap);
  }

  /** The price-to-quantity maps a book should hold after a snapshot and the accepted updates. */
  ghost function BidMap(bids: seq<Quote>, acc: seq<Delta>): Depth {
    MapRows(MapRows(map[], BidRows(bids)), AllBidRows(acc))
  }

  ghost function AskMap(asks: seq<Quote>, acc: seq<Delta>): Depth {
    MapRows(MapRows(map[], AskRows(asks)), AllAskRows(acc))
  }

  ghost predicate SideFits(rows: seq<Row>, later: seq<Row>, cap: nat) {
    DistinctKeys(rows) && Quoted(rows) <= cap && Fits(MapRows(map[], rows), later, cap)
  }

  lemma {:induction false} SideRefinesMap(rows: seq<Row>, later: seq<Row>, cap: nat)
    requires SideFits(rows, later, cap)
    ensures var s := ApplyRows(FromSnapshot(rows, cap), later, cap);
            StrictlyOrdered(s) && Positive(s) && Represents(s, MapRows(MapRows(map[], rows), later))
  {
    SnapshotRefinesMap(rows, cap);
    ApplyRowsRefinesMap(FromSnapshot(rows, cap), MapRows(map[], rows), later, cap);
  }

  /**
   From a snapshot with distinct prices, and while the capacity is not exceeded, each side is the
   strictly ordered, positive listing of exactly the fold of the accepted rows over a map.
   */
  lemma {:induction false} BookRefinesMaps(b: Book, id: int, bids: seq<Quote>, asks: seq<Quote>, ds: seq<Delta>,
                                           cap: nat)
    requires b.buf == [] && id > 0
    requires IngestAll(Snapshot(b, id, bids, asks, cap), ds, cap).ok
    requires SideFits(BidRows(bids), AllBidRows(Accepted(Snapshot(b, id, bids, asks, cap), ds, cap)), cap)
    requires SideFits(AskRows(asks), AllAskRows(Accepted(Snapshot(b, id, bids, asks, cap), ds, cap)), cap)
    ensures var start := Snapshot(b, id, bids, asks, cap);
            var r, acc := IngestAll(start, ds, cap), Accepted(start, ds, cap);
            && StrictlyOrdered(r.bids) && Positive(r.bids) && Represents(r.bids, BidMap(bids, acc))
            && StrictlyOrdered(r.asks) && Positive(r.asks) && Represents(r.asks, AskMap(asks, acc))
  {
    SpliceIsTransparent(b, id, bids, asks, cap);
    var a := Snapshot(b, id, bids, asks, cap);
    SidesAreFoldsOfAccepted(a, ds, cap);
    var acc := Accepted(a, ds, cap);
    SideRefinesMap(BidRows(bids), AllBidRows(acc), cap);
    SideRefinesMap(AskRows(asks), AllAskRows(acc), cap);
  }

  /** The early-exit depth query is the full filter-and-sum over the two maps. */
  lemma {:induction false} CumulativeDepthIsFullFilter(b: Book, bidMap: Depth, askMap: Depth, bps: int)
    requires b.ok && b.bids != [] && b.asks != []
    requires StrictlyOrdered(b.bids) && Represents(b.bids, bidMap)
    requires StrictlyOrdered(b.asks) && Represents(b.asks, askMap)
    ensures var half := (Mid(b) * bps) / 10_000;
            var r := CumulativeDepth(b, bps);
            && r.Some?
            && r.value.0 as real == SumOver(bidMap.Keys, DepthTerm(bidMap, -1, half - Mid(b)))
            && r.value.1 as real == SumOver(askMap.Keys, DepthTerm(askMap, 1, Mid(b) + half))
  {
    BidWalk(b, bidMap, bps);
    AskWalk(b, askMap, bps);
  }

  lemma {:induction false} BidWalk(b: Book, m: Depth, bps: int)
    requires b.ok && b.bids != [] && b.asks != [] && StrictlyOrdered(b.bids) && Represents(b.bids, m)
    ensures CumulativeDepth(b, bps).value.0 as real
         == SumOver(m.Keys, DepthTerm(m, -1, (Mid(b) * bps) / 10_000 - Mid(b)))
  {
    DepthWalkIsFullFilter(b.bids, m, -1, (Mid(b) * bps) / 10_000 - Mid(b));
  }

  lemma {:induction false} AskWalk(b: Book, m: Depth, bps: int)
    requires b.ok && b.bids != [] && b.asks != [] && StrictlyOrdered(b.asks) && Represents(b.asks, m)
    ensures CumulativeDepth(b, bps).value.1 as real
         == SumOver(m.Keys, DepthTerm(m, 1, Mid(b) + (Mid(b) * bps) / 10_000))
  {
    DepthWalkIsFullFilter(b.asks, m, 1, Mid(b) + (Mid(b) * bps) / 10_000);
  }
}
