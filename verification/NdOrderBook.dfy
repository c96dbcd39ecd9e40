/**
 The anchored level-2 book: snapshots, live updates, buffering before an anchor exists, and the
 replay of buffered updates on top of a snapshot.

 `Book` is the state as a value and the functions on it are the specification; the class keeps the
 state in its arrays and ring, and each of its methods is proved to move the value as specified.
 The clock reading kept for staleness is not part of the state.
 */
module NdOrderBooks {
  import opened Options
  import opened Levels
  import opened BookSides
  import opened DeltaRings

  datatype Reject = NoSnapshotAnchor | InvalidRange | StaleId | SequenceGap | StaleSeq

  datatype Book = Book(bids: seq<Level>, asks: seq<Level>, u: int, lastSeq: int, reject: Option<Reject>,
                       ok: bool, epoch: nat, buf: seq<Frame>)

  const EMPTY_BOOK := Book([], [], 0, 0, None, false, 0, [])

  function BidRows(quotes: seq<Quote>): seq<Row> {
    seq(|quotes|, i requires 0 <= i < |quotes| => Row(-quotes[i].price, quotes[i].qty))
  }

  function AskRows(quotes: seq<Quote>): seq<Row> {
    seq(|quotes|, i requires 0 <= i < |quotes| => Row(quotes[i].price, quotes[i].qty))
  }

  function HardReset(b: Book): Book {
    b.(bids := [], asks := [], u := 0, lastSeq := 0, ok := false, epoch := b.epoch + 1, buf := [])
  }

  /** The rows, id and sequence number of one accepted update. */
  function Applied(b: Book, d: Delta, cap: nat): Book {
    b.(bids := ApplyRows(b.bids, BidRows(d.bids), cap),
       asks := ApplyRows(b.asks, AskRows(d.asks), cap),
       u := d.id,
       lastSeq := if d.sq.Some? then d.sq.value else b.lastSeq)
  }

  predicate Gap(b: Book, d: Delta) {
    d.lo.Some? && b.u > 0 && d.lo.value > b.u + 1
  }

  predicate Inverted(d: Delta) {
    d.lo.Some? && d.id < d.lo.value
  }

  predicate SeqStale(b: Book, d: Delta) {
    d.sq.Some? && b.lastSeq > 0 && d.sq.value <= b.lastSeq
  }

  /** `ingest_delta`. */
  function Ingest(b: Book, d: Delta, cap: nat): Book {
    if b.u == 0 then b.(buf := Pushed(b.buf, Encode(d)), reject := Some(NoSnapshotAnchor))
    else if Inverted(d) then HardReset(b.(reject := Some(InvalidRange)))
    else if d.id <= b.u then b.(reject := Some(StaleId))
    else if Gap(b, d) then HardReset(b.(reject := Some(SequenceGap)))
    else if SeqStale(b, d) then b.(reject := Some(StaleSeq))
    else Applied(b.(reject := None), d, cap)
  }

  function IngestAll(b: Book, ds: seq<Delta>, cap: nat): Book
    decreases |ds|
  {
    if ds == [] then b else IngestAll(Ingest(b, ds[0], cap), ds[1..], cap)
  }

  /** The loop of `ingest_snapshot` that plays the buffered frames on top of the snapshot. */
  function Replay(b: Book, cap: nat): Book
    decreases |b.buf|
  {
    if b.buf == [] then b
    else
      var d := Decode(b.buf[0]);
      var b1 := b.(buf := b.buf[1..]);
      if d.id <= b.u then Replay(b1, cap)
      else if Gap(b, d) then HardReset(b1.(reject := Some(SequenceGap)))
      else Replay(Applied(b1, d, cap), cap)
  }

  /** The book as filled from the snapshot rows, before the replay. */
  function Anchored(b: Book, id: int, bids: seq<Quote>, asks: seq<Quote>, cap: nat): Book {
    b.(bids := FromSnapshot(BidRows(bids), cap), asks := FromSnapshot(AskRows(asks), cap),
       u := id, lastSeq := 0, reject := None, ok := true, epoch := b.epoch + 1)
  }

  /** `ingest_snapshot`. */
  function Snapshot(b: Book, id: int, bids: seq<Quote>, asks: seq<Quote>, cap: nat): Book {
    var a := Anchored(b, id, bids, asks, cap);
    Replay(a.(buf := a.buf[SpliceCount(a.buf, id)..]), cap)
  }

  class NdOrderBook {
    const cap: nat
    const bidSide: BookSide
    const askSide: BookSide
    const ring: DeltaRing
    var u: int
    var lastSeq: int
    var reject: Option<Reject>
    var ok: bool
    var readEpoch: nat

    ghost predicate Valid()
      reads this, Repr()
    {
      && bidSide != askSide
      && bidSide.keys != askSide.keys && bidSide.keys != askSide.qtys
      && bidSide.qtys != askSide.keys && bidSide.qtys != askSide.qtys
      && bidSide.cap == cap && askSide.cap == cap
      && bidSide.Valid() && askSide.Valid() && ring.Valid()
    }

    ghost function Repr(): set<object> {
      {this, bidSide, bidSide.keys, bidSide.qtys, askSide, askSide.keys, askSide.qtys, ring, ring.frames}
    }

    ghost function State(): Book
      requires Valid()
      reads this, Repr()
    {
      Book(bidSide.Contents(), askSide.Contents(), u, lastSeq, reject, ok, readEpoch, ring.Contents())
    }

    /* The source refuses a capacity of 2 or less. */
    constructor (cap: nat)
      requires cap > 2
      ensures Valid() && this.cap == cap && State() == EMPTY_BOOK
      ensures fresh(Repr())
    {
      this.cap := cap;
      bidSide := new BookSide(cap);
      askSide := new BookSide(cap);
      ring := new DeltaRing();
      u, lastSeq, reject, ok, readEpoch := 0, 0, None, false, 0;
    }

    method Invalidate()
      requires Valid()
      modifies Repr()
      ensures Valid() && State() == HardReset(old(State()))
    {
      bidSide.Clear();
      askSide.Clear();
      u, lastSeq, ok, readEpoch := 0, 0, false, readEpoch + 1;
      ring.Reset();
    }

    method ApplyUpdate(d: Delta)
      requires Valid()
      modifies Repr()
      ensures Valid() && State() == Applied(old(State()), d, cap)
    {
      ApplySides(BidRows(d.bids), AskRows(d.asks));
      SetIds(d.id, if d.sq.Some? then d.sq.value else lastSeq);
    }

    method ApplySides(bidRows: seq<Row>, askRows: seq<Row>)
      requires Valid()
      modifies bidSide, bidSide.keys, bidSide.qtys, askSide, askSide.keys, askSide.qtys
      ensures Valid()
      ensures State() == old(State()).(bids := ApplyRows(old(State()).bids, bidRows, cap),
                                       asks := ApplyRows(old(State()).asks, askRows, cap))
    {
      bidSide.ApplyAll(bidRows);
      askSide.ApplyAll(askRows);
    }

    method SetIds(id: int, seqId: int)
      requires Valid()
      modifies this`u, this`lastSeq
      ensures Valid() && State() == old(State()).(u := id, lastSeq := seqId)
    {
      u, lastSeq := id, seqId;
    }

    method IngestDelta(d: Delta) returns (applied: bool)
      requires Valid()
      modifies Repr()
      ensures Valid() && State() == Ingest(old(State()), d, cap)
      ensures applied <==> State().reject == None
    {
      if u == 0 {
        ring.WriteFrame(d);
        reject := Some(NoSnapshotAnchor);
        return false;
      }
      if d.lo.Some? && d.id < d.lo.value {
        reject := Some(InvalidRange);
        Invalidate();
        return false;
      }
      if d.id <= u {
        reject := Some(StaleId);
        return false;
      }
      if d.lo.Some? && u > 0 && d.lo.value > u + 1 {
        reject := Some(SequenceGap);
        Invalidate();
        return false;
      }
      if d.sq.Some? && lastSeq > 0 && d.sq.value <= lastSeq {
        reject := Some(StaleSeq);
        return false;
      }
      reject := None;
      ApplyUpdate(d);
      return true;
    }

    method IngestSnapshot(id: int, bids: seq<Quote>, asks: seq<Quote>)
      requires Valid()
      modifies Repr()
      ensures Valid() && State() == Snapshot(old(State()), id, bids, asks, cap)
    {
      FillFromSnapshot(id, bids, asks);
      Splice(id);
      ReplayBuffered();
    }

    method FillSides(bidRows: seq<Row>, askRows: seq<Row>)
      requires Valid()
      modifies bidSide, bidSide.keys, bidSide.qtys, askSide, askSide.keys, askSide.qtys
      ensures Valid()
      ensures State() == old(State()).(bids := FromSnapshot(bidRows, cap), asks := FromSnapshot(askRows, cap))
    {
      bidSide.Fill(bidRows);
      askSide.Fill(askRows);
    }

    method Anchor(id: int)
      requires Valid()
      modifies this`u, this`lastSeq, this`ok, this`readEpoch
      ensures Valid()
      ensures State() == old(State()).(u := id, lastSeq := 0, ok := true, epoch := old(readEpoch) + 1)
    {
      u, lastSeq, ok, readEpoch := id, 0, true, readEpoch + 1;
    }

    method FillFromSnapshot(id: int, bids: seq<Quote>, asks: seq<Quote>)
      requires Valid()
      modifies Repr()
      ensures Valid() && State() == Anchored(old(State()), id, bids, asks, cap)
    {
      reject := None;
      FillSides(BidRows(bids), AskRows(asks));
      Anchor(id);
    }

    method Splice(id: int)
      requires Valid()
      modifies Repr()
      ensures Valid()
      ensures State() == old(State()).(buf := old(State()).buf[SpliceCount(old(State()).buf, id)..])
    {
      var _ := ring.FastForwardSplice(id);
    }

    method ReplayBuffered()
      requires Valid()
      modifies Repr()
      ensures Valid() && State() == Replay(old(State()), cap)
    {
      var more := true;
      while more
        invariant Valid()
        invariant Replay(State(), cap) == Replay(old(State()), cap)
        invariant !more ==> State() == Replay(old(State()), cap)
        decreases |State().buf|, more
      {
        more := ReplayNext();
      }
    }

    /* One turn of the replay loop; `more` is false where the source breaks out of it. */
    method ReplayNext() returns (more: bool)
      requires Valid()
      modifies Repr()
      ensures Valid()
      ensures Replay(State(), cap) == Replay(old(State()), cap)
      ensures |State().buf| <= |old(State()).buf|
      ensures if more then |State().buf| < |old(State()).buf| else State() == Replay(State(), cap)
    {
      ghost var before := State();
      var next := ring.ReadNextFrame();
      if next.None? {
        assert State() == before;
        return false;
      }
      var d := next.value;
      assert State() == before.(buf := before.buf[1..]);
      if d.id <= u {
        return true;
      }
      if d.lo.Some? && u > 0 && d.lo.value > u + 1 {
        reject := Some(SequenceGap);
        Invalidate();
        return false;
      }
      ApplyUpdate(d);
      return true;
    }

    /** Quote-currency depth within `bps` of the mid price, or nothing when the book is not usable. */
    method GetCumulativeDepth(bps: int) returns (r: Option<(int, int)>)
      requires Valid()
      ensures r == CumulativeDepth(State(), bps)
    {
      if !ok || bidSide.n <= 0 || askSide.n <= 0 {
        return None;
      }
      var bestBid := -bidSide.keys[0];
      var bestAsk := askSide.keys[0];
      assert bidSide.Contents()[0].key == bidSide.keys[0] && askSide.Contents()[0].key == askSide.keys[0];
      var mid := (bestBid + bestAsk) / 2;
      var half := (mid * bps) / 10_000;
      var askUsd := askSide.DepthWithin(1, mid + half);
      var bidUsd := bidSide.DepthWithin(-1, half - mid);
      return Some((bidUsd, askUsd));
    }
  }

  function Mid(b: Book): int
    requires b.bids != [] && b.asks != []
  {
    (-b.bids[0].key + b.asks[0].key) / 2
  }

  function CumulativeDepth(b: Book, bps: int): Option<(int, int)> {
    if !b.ok || b.bids == [] || b.asks == [] then None
    else
      var half := (Mid(b) * bps) / 10_000;
      Some((DepthWalk(b.bids, -1, half - Mid(b)), DepthWalk(b.asks, 1, Mid(b) + half)))
  }
}
