/**
 The delta ring that buffers order book updates until a snapshot anchors the book: 2^16 frames,
 drop-oldest, addressed by free-running `head` and `tail` counters (masked to a slot), run in one event loop.
 */
module DeltaRings {
  import opened Options
  import opened Words
  import opened Modulo

  const BUFFER_CAPACITY: nat := 65536
  const MAX_ROWS: nat := 50
  const MAX_SPIN: nat := 1000

  datatype Quote = Quote(price: int, qty: int)

  /* An update as the feed delivers it. */
  datatype Delta = Delta(id: int, lo: Option<int>, sq: Option<int>, bids: seq<Quote>, asks: seq<Quote>)

  /* The same update as a frame stores it: fixed-width fields, sentinels for absent ones, 50 rows a side. */
  datatype Frame = Frame(id: int, lo: int, sq: int, bids: seq<Quote>, asks: seq<Quote>)

  function Unsigned64(x: int): int { x % TWO64 }

  function Signed64(x: int): int { (x + TWO63) % TWO64 - TWO63 }

  function FirstRows(rows: seq<Quote>): seq<Quote> {
    if |rows| <= MAX_ROWS then rows else rows[..MAX_ROWS]
  }

  function Encode(d: Delta): Frame {
    Frame(Unsigned64(d.id),
          if d.lo.Some? then Signed64(d.lo.value) else -1,
          if d.sq.Some? then Unsigned64(d.sq.value) else 0,
          FirstRows(d.bids), FirstRows(d.asks))
  }

  function Decode(f: Frame): Delta {
    Delta(f.id, if f.lo != -1 then Some(f.lo) else None, if f.sq != 0 then Some(f.sq) else None, f.bids, f.asks)
  }

  /* The updates that survive the frame format unchanged. */
  predicate Storable(d: Delta) {
    && 0 <= d.id < TWO64
    && (d.lo.Some? ==> Int64(d.lo.value) && d.lo.value != -1)
    && (d.sq.Some? ==> 0 < d.sq.value < TWO64)
    && |d.bids| <= 50 && |d.asks| <= 50
  }

  /** Storing and reading back an update is the identity exactly on the storable updates. */
  lemma {:induction false} StoreRoundTrip(d: Delta)
    ensures Decode(Encode(d)) == d <==> Storable(d)
  {
    if Storable(d) {
      assert d.lo.Some? ==> Signed64(d.lo.value) == d.lo.value;
    }
  }

  /** Drop-oldest insertion into the queue of buffered frames. */
  function Pushed(q: seq<Frame>, f: Frame): seq<Frame> {
    (if |q| >= BUFFER_CAPACITY then q[1..] else q) + [f]
  }

  /**
   How many frames `fast_forward_splice` drops from the front: those before the first frame whose id
   is at least the snapshot's, provided the snapshot lies between the first and the last id.
   */
  function SpliceCount(q: seq<Frame>, id: int): (k: nat)
    ensures k <= |q|
    ensures forall i :: 0 <= i < k ==> q[i].id < id
    ensures q != [] && q[0].id <= id <= q[|q| - 1].id ==> k < |q| && q[k].id >= id
  {
    if q == [] || id < q[0].id || id > q[|q| - 1].id then 0 else FirstAtLeast(q, id)
  }

  function FirstAtLeast(q: seq<Frame>, id: int): (k: nat)
    ensures k <= |q|
    ensures forall i :: 0 <= i < k ==> q[i].id < id
    ensures k < |q| ==> q[k].id >= id
  {
    if q == [] || q[0].id >= id then 0
    else
      var k := FirstAtLeast(q[1..], id);
      assert forall i :: 0 < i < 1 + k ==> q[i] == q[1..][i - 1];
      1 + k
  }

  lemma {:induction false} FirstAtLeastIs(q: seq<Frame>, id: int, k: nat)
    requires k < |q| && q[k].id >= id && forall i :: 0 <= i < k ==> q[i].id < id
    ensures FirstAtLeast(q, id) == k
    decreases k
  {
    if k > 0 {
      FirstAtLeastIs(q[1..], id, k - 1);
    }
  }

  class DeltaRing {
    const frames: array<Frame>
    var epoch: nat
    var head: nat
    var tail: nat

    ghost predicate Bounded()
      reads this
    {
      frames.Length == BUFFER_CAPACITY && tail <= head <= tail + BUFFER_CAPACITY
    }

    /* Between calls no write is in progress, so the epoch is even. */
    ghost predicate Valid()
      reads this
    {
      Bounded() && epoch % 2 == 0
    }

    /** The buffered frames, oldest first. */
    ghost function Contents(): (q: seq<Frame>)
      requires Bounded()
      reads this, frames
      ensures |q| == head - tail <= BUFFER_CAPACITY
    {
      seq(head - tail, i requires 0 <= i && frames.Length == BUFFER_CAPACITY reads this, frames
                         => frames[Slot(tail + i, BUFFER_CAPACITY)])
    }

    constructor ()
      ensures Valid() && Contents() == [] && fresh(frames)
    {
      frames := new Frame[BUFFER_CAPACITY](_ => Frame(0, 0, 0, [], []));
      epoch, head, tail := 0, 0, 0;
    }

    method WriteFrame(d: Delta)
      requires Valid()
      modifies this, frames
      ensures Valid()
      ensures Contents() == Pushed(old(Contents()), Encode(d))
    {
      ghost var q := Contents();
      epoch := epoch + 1;
      if head - tail >= BUFFER_CAPACITY {
        tail := tail + 1;
      }
      ghost var kept := if |q| >= BUFFER_CAPACITY then q[1..] else q;
      assert Contents() == kept;
      StoreAtHead(Encode(d));
      epoch := epoch + 1;
      assert Contents() == kept + [Encode(d)];
    }

    method StoreAtHead(f: Frame)
      requires Bounded() && head - tail < BUFFER_CAPACITY
      modifies this`head, frames
      ensures Bounded() && head == old(head) + 1
      ensures Contents() == old(Contents()) + [f]
    {
      ghost var q := Contents();
      forall c: nat | tail <= c < head
        ensures Slot(c, BUFFER_CAPACITY) != Slot(head, BUFFER_CAPACITY)
      {
        SlotsApart(c, head, BUFFER_CAPACITY);
      }
      assert forall i :: 0 <= i < |q| ==> q[i] == frames[Slot(tail + i, BUFFER_CAPACITY)];
      frames[Slot(head, BUFFER_CAPACITY)] := f;
      assert forall i :: 0 <= i < |q| ==> q[i] == frames[Slot(tail + i, BUFFER_CAPACITY)];
      head := head + 1;
      assert Contents() == q + [f];
    }

    method AdvanceTail(target: nat)
      requires Valid() && tail <= target <= head
      modifies this`tail
      ensures Valid() && Contents() == old(Contents())[target - old(tail)..]
    {
      ghost var q := Contents();
      ghost var k := target - tail;
      tail := target;
      assert Contents() == q[k..];
    }

    method ReadNextFrame() returns (r: Option<Delta>)
      requires Valid()
      modifies this`tail
      ensures Valid()
      ensures old(Contents()) == [] ==> r == None && Contents() == []
      ensures old(Contents()) != [] ==> r == Some(Decode(old(Contents())[0])) && Contents() == old(Contents())[1..]
    {
      ghost var q := Contents();
      for spin := 0 to MAX_SPIN
        invariant tail == old(tail) && spin == 0
      {
        var seq1 := epoch;
        if seq1 % 2 == 1 {
          continue;
        }
        if tail == head {
          return None;
        }
        var frame := frames[Slot(tail, BUFFER_CAPACITY)];
        var seq2 := epoch;
        if seq1 == seq2 {
          AdvanceTail(tail + 1);
          return Some(Decode(frame));
        }
      }
      return None;
    }

    /** The inner scan of `fast_forward_splice`, from the oldest frame to the first with id >= `id`. */
    method ScanFor(id: int) returns (target: nat, found: bool)
      requires Valid()
      ensures found ==> tail <= target < head && target - tail == FirstAtLeast(Contents(), id)
      ensures !found ==> forall i :: 0 <= i < |Contents()| ==> Contents()[i].id < id
    {
      target := tail;
      var curr := tail;
      while curr != head
        invariant tail <= curr <= head
        invariant forall i :: 0 <= i < curr - tail ==> Contents()[i].id < id
        decreases head - curr
      {
        assert Contents()[curr - tail] == frames[Slot(curr, BUFFER_CAPACITY)];
        if frames[Slot(curr, BUFFER_CAPACITY)].id >= id {
          FirstAtLeastIs(Contents(), id, curr - tail);
          return curr, true;
        }
        curr := curr + 1;
      }
      return target, false;
    }

    method FastForwardSplice(id: int) returns (found: bool)
      requires Valid()
      modifies this`tail
      ensures Valid()
      ensures Contents() == old(Contents())[SpliceCount(old(Contents()), id)..]
      ensures found <==> var q := old(Contents()); q != [] && q[0].id <= id <= q[|q| - 1].id
    {
      ghost var q := Contents();
      for spin := 0 to MAX_SPIN
        invariant tail == old(tail) && spin == 0
      {
        var seq1 := epoch;
        if seq1 % 2 == 1 {
          continue;
        }
        if head == tail {
          assert q == [];
          return false;
        }
        var firstId := frames[Slot(tail, BUFFER_CAPACITY)].id;
        var lastId := frames[Slot(head - 1, BUFFER_CAPACITY)].id;
        assert firstId == q[0].id && lastId == q[|q| - 1].id;
        if id < firstId || id > lastId {
          assert q[0..] == q;
          return false;
        }
        var target;
        target, found := ScanFor(id);
        var seq2 := epoch;
        if seq1 == seq2 {
          if found {
            AdvanceTail(target);
          }
          return found;
        }
      }
      return false;
    }

    method Reset()
      modifies this
      requires Valid()
      ensures Valid() && Contents() == []
    {
      epoch, head, tail := 0, 0, 0;
    }
  }
}
