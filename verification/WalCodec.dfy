/** The byte layout of one feature record: little-endian 64-bit fields and a one-byte flag. */
module WalCodec {
  import opened Words

  type Byte = x: int | 0 <= x < 256

  datatype Record = Record(id: int, ts: int, features: seq<int>, outcome: int, exitPx: int, pnlBps: int, labeled: bool)

  function Power256(n: nat): (p: nat)
    ensures p > 0
  {
    if n == 0 then 1 else 256 * Power256(n - 1)
  }

  function Digits(u: nat, n: nat): (bs: seq<Byte>)
    ensures |bs| == n
  {
    if n == 0 then [] else [u % 256] + Digits(u / 256, n - 1)
  }

  function Value(bs: seq<Byte>): (u: nat)
  {
    if bs == [] then 0 else bs[0] + 256 * Value(bs[1..])
  }

  lemma {:induction false} DigitsRoundTrip(u: nat, n: nat)
    requires u < Power256(n)
    ensures Value(Digits(u, n)) == u
    decreases n
  {
    if n > 0 {
      assert u / 256 < Power256(n - 1);
      DigitsRoundTrip(u / 256, n - 1);
      assert Digits(u, n)[1..] == Digits(u / 256, n - 1);
    }
  }

  /** Two's complement, little-endian. */
  function Pack(x: int): (bs: seq<Byte>)
    requires Int64(x)
    ensures |bs| == 8
  {
    Digits(if x < 0 then x + TWO64 else x, 8)
  }

  function Unpack(bs: seq<Byte>): int {
    var u := Value(bs);
    if u >= TWO63 then u - TWO64 else u
  }

  lemma {:induction false} PackRoundTrip(x: int)
    requires Int64(x)
    ensures Unpack(Pack(x)) == x
  {
    PowerOf8();
    DigitsRoundTrip(if x < 0 then x + TWO64 else x, 8);
  }

  lemma {:induction false} PowerOf8()
    ensures Power256(8) == TWO64
  {
    assert Power256(4) == 256 * 256 * 256 * 256 by {
      assert Power256(2) == 256 * 256;
      assert Power256(3) == 256 * Power256(2);
    }
    assert Power256(6) == 256 * 256 * Power256(4) by {
      assert Power256(5) == 256 * Power256(4);
    }
    assert Power256(7) == 256 * Power256(6);
  }

  function Zeros(n: nat): (bs: seq<Byte>)
    ensures |bs| == n
  {
    seq(n, _ => 0)
  }

  lemma {:induction false} ZerosAreZero(n: nat)
    ensures Value(Zeros(n)) == 0
    decreases n
  {
    if n > 0 {
      assert Zeros(n)[1..] == Zeros(n - 1);
      ZerosAreZero(n - 1);
    }
  }

  function PackAll(xs: seq<int>): (bs: seq<Byte>)
    requires forall i :: 0 <= i < |xs| ==> Int64(xs[i])
    ensures |bs| == 8 * |xs|
  {
    if xs == [] then [] else Pack(xs[0]) + PackAll(xs[1..])
  }

  function UnpackAll(bs: seq<Byte>, n: nat): (xs: seq<int>)
    requires |bs| == 8 * n
    ensures |xs| == n
    decreases n
  {
    if n == 0 then [] else [Unpack(bs[..8])] + UnpackAll(bs[8..], n - 1)
  }

  lemma {:induction false} PackAllRoundTrip(xs: seq<int>)
    requires forall i :: 0 <= i < |xs| ==> Int64(xs[i])
    ensures UnpackAll(PackAll(xs), |xs|) == xs
    decreases |xs|
  {
    if xs != [] {
      PackRoundTrip(xs[0]);
      PackAllRoundTrip(xs[1..]);
      assert PackAll(xs)[..8] == Pack(xs[0]) && PackAll(xs)[8..] == PackAll(xs[1..]);
    }
  }

  const HEADER: nat := 24
  const TRAILER: nat := 25

  predicate Storable(r: Record) {
    && Int64(r.id) && Int64(r.ts) && Int64(|r.features|)
    && (forall i :: 0 <= i < |r.features| ==> Int64(r.features[i]))
    && Int64(r.outcome) && Int64(r.exitPx) && Int64(r.pnlBps)
  }

  function Header(id: int, ts: int, n: nat): (bs: seq<Byte>)
    requires Int64(id) && Int64(ts) && Int64(n)
    ensures |bs| == HEADER
  {
    Pack(id) + Pack(ts) + Pack(n)
  }

  function Trailer(outcome: int, exitPx: int, pnlBps: int, labeled: bool): (bs: seq<Byte>)
    requires Int64(outcome) && Int64(exitPx) && Int64(pnlBps)
    ensures |bs| == TRAILER
  {
    Pack(outcome) + Pack(exitPx) + Pack(pnlBps) + [if labeled then 1 else 0]
  }

  function Encode(r: Record): (bs: seq<Byte>)
    requires Storable(r)
    ensures |bs| == HEADER + 8 * |r.features| + TRAILER
  {
    Header(r.id, r.ts, |r.features|) + PackAll(r.features) + Trailer(r.outcome, r.exitPx, r.pnlBps, r.labeled)
  }

  /* The three header fields. */
  function ReadHeader(bs: seq<Byte>): (int, int, int)
    requires |bs| >= HEADER
  {
    (Unpack(bs[..8]), Unpack(bs[8..16]), Unpack(bs[16..24]))
  }

  function ReadFeatures(bs: seq<Byte>, n: nat): seq<int>
    requires |bs| == HEADER + 8 * n + TRAILER
  {
    UnpackAll(bs[HEADER..HEADER + 8 * n], n)
  }

  /* Outcome and flag of the trailer. */
  function ReadTrailer(bs: seq<Byte>, n: nat): (int, bool)
    requires |bs| == HEADER + 8 * n + TRAILER
  {
    var t := bs[HEADER + 8 * n..];
    (Unpack(t[..8]), t[24] != 0)
  }

  /** Replace the trailer bytes of an encoded record. */
  function WithTrailer(bs: seq<Byte>, n: nat, trailer: seq<Byte>): (r: seq<Byte>)
    requires |bs| == HEADER + 8 * n + TRAILER && |trailer| == TRAILER
    ensures |r| == |bs|
  {
    bs[..HEADER + 8 * n] + trailer
  }

  /** Every part of a record is read back from its bytes. */
  lemma {:induction false} RecordRoundTrip(r: Record)
    requires Storable(r)
    ensures var bs, n := Encode(r), |r.features|;
            && ReadHeader(bs) == (r.id, r.ts, n)
            && ReadFeatures(bs, n) == r.features
            && ReadTrailer(bs, n) == (r.outcome, r.labeled)
  {
    var bs, n := Encode(r), |r.features|;
    PackRoundTrip(r.id);
    PackRoundTrip(r.ts);
    PackRoundTrip(n);
    PackRoundTrip(r.outcome);
    PackAllRoundTrip(r.features);
    assert bs[..8] == Pack(r.id) && bs[8..16] == Pack(r.ts) && bs[16..24] == Pack(n);
    assert bs[HEADER..HEADER + 8 * n] == PackAll(r.features);
    var t := bs[HEADER + 8 * n..];
    assert t == Trailer(r.outcome, r.exitPx, r.pnlBps, r.labeled);
    assert t[..8] == Pack(r.outcome);
  }

  /** Overwriting the trailer bytes is encoding the relabelled record. */
  lemma {:induction false} RelabelBytes(r: Record, outcome: int, exitPx: int, pnlBps: int)
    requires Storable(r) && Int64(outcome) && Int64(exitPx) && Int64(pnlBps)
    ensures var r' := r.(outcome := outcome, exitPx := exitPx, pnlBps := pnlBps, labeled := true);
            Storable(r') && WithTrailer(Encode(r), |r.features|, Trailer(outcome, exitPx, pnlBps, true)) == Encode(r')
  {
  }

  /** An unwritten slot reads as the end-of-log marker. */
  lemma {:induction false} ZeroHeader(n: nat)
    requires n >= HEADER
    ensures ReadHeader(Zeros(n)) == (0, 0, 0)
  {
    ZerosAreZero(8);
    assert Zeros(n)[..8] == Zeros(8) && Zeros(n)[8..16] == Zeros(8) && Zeros(n)[16..24] == Zeros(8);
  }
}
