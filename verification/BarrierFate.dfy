/**
 What becomes of an open intent: it stays open with widened watermarks while no bar that is read touches a
 barrier and its time is not up, and leaves at the first bar that does, with the row that bar dictates.
 */
module BarrierFates {
  import opened Options
  import opened DollarBars
  import opened TripleBarrier
  import opened LabelArithmetic

  type Rows = seq<Option<BarRow>>

  /* A price this many basis points from the entry, above or below, rounded down. */
  ghost predicate IsBarrier(price: int, entry: int, bps: int) {
    10_000 * price <= entry * (10_000 + bps) < 10_000 * (price + 1)
  }

  /** An intent starts with its barriers at their distances from its entry, and both watermarks at the entry. */
  lemma {:induction false} RegisteredBarriers(id: int, entry: int, side: int, tpBps: int, slBps: int, maxBars: int,
                                              bar: int)
    ensures var i := Registered(id, entry, side, tpBps, slBps, maxBars, bar);
            && i == Intent(id, entry, i.tp, i.sl, bar, maxBars, side, entry, entry)
            && (if side > 0 then IsBarrier(i.tp, entry, tpBps) && IsBarrier(i.sl, entry, -slBps)
                else IsBarrier(i.tp, entry, -tpBps) && IsBarrier(i.sl, entry, slBps))
  {
  }

  /* The first row that is read and is due for the intent, or the number of rows. */
  ghost function FirstDue(i: Intent, rows: Rows, first: int): (m: nat)
    ensures m <= |rows|
    ensures forall k :: 0 <= k < m && rows[k].Some? ==> NotDue(i, rows[k].value, first + k)
    ensures m < |rows| ==> rows[m].Some? && !NotDue(i, rows[m].value, first + m)
    decreases |rows|
  {
    if rows == [] then 0
    else if rows[0].Some? && !NotDue(i, rows[0].value, first) then 0
    else
      var m := FirstDue(i, rows[1..], first + 1);
      assert forall k :: 0 < k < |rows| ==> rows[k] == rows[1..][k - 1];
      1 + m
  }

  /* The watermarks of `w` are the extremes of those of `i` and of the rows read; nothing else differs. */
  ghost predicate WidenedBy(i: Intent, w: Intent, rows: Rows) {
    && w == i.(high := w.high, low := w.low)
    && IsMax(w.high, i.high, rows) && IsMin(w.low, i.low, rows)
  }

  ghost predicate IsMax(x: int, start: int, rows: Rows) {
    && start <= x && (forall k :: 0 <= k < |rows| && rows[k].Some? ==> rows[k].value.high <= x)
    && (x == start || exists k :: 0 <= k < |rows| && rows[k].Some? && rows[k].value.high == x)
  }

  ghost predicate IsMin(x: int, start: int, rows: Rows) {
    && x <= start && (forall k :: 0 <= k < |rows| && rows[k].Some? ==> x <= rows[k].value.low)
    && (x == start || exists k :: 0 <= k < |rows| && rows[k].Some? && rows[k].value.low == x)
  }

  ghost predicate StopTouched(i: Intent, b: BarRow) {
    (i.side > 0 && b.low <= i.sl) || (i.side < 0 && i.sl <= b.high)
  }

  ghost predicate TargetTouched(i: Intent, b: BarRow) {
    (i.side > 0 && i.tp <= b.high) || (i.side < 0 && b.low <= i.tp)
  }

  /* The row that bar `bar` dictates for an intent with these watermarks: the stop before the target before the time. */
  ghost predicate Dictated(r: Result, w: Intent, b: BarRow, bar: int) {
    && r.id == w.id && r.entry == w.entry && r.side == w.side && r.entryBar == w.entryBar
    && r.exitBar == bar && r.barsHeld == bar - w.entryBar
    && (r.outcome == -1 <==> StopTouched(w, b))
    && (r.outcome == 1 <==> !StopTouched(w, b) && TargetTouched(w, b))
    && (r.outcome == 0 <==> !StopTouched(w, b) && !TargetTouched(w, b))
    && (r.outcome == 0 ==> r.exit == b.close && bar - w.entryBar >= w.maxBars)
    && (r.outcome == 1 ==> r.exit == w.tp)
    && (r.outcome == -1 ==> (r.exit == w.sl || r.exit == if w.side > 0 then b.low else b.high)
                            && (if w.side > 0 then r.exit <= w.sl && r.exit <= b.low
                                else w.sl <= r.exit && b.high <= r.exit))
    && (w.side > 0 ==> r.mfe == w.high - w.entry && r.mae == w.entry - w.low)
    && (w.side < 0 ==> r.mfe == w.entry - w.low && r.mae == w.high - w.entry)
  }

  lemma {:induction false} ScannedIsDictated(i: Intent, b: BarRow, bar: int)
    ensures Resolves(i, b, bar) <==> !NotDue(i, b, bar)
    ensures Resolves(i, b, bar) ==> Dictated(Scanned(i, b, bar), i, b, bar)
  {
  }

  /* The intent after its watermarks have seen the rows. */
  function MarkedBy(i: Intent, rows: Rows): Intent
    decreases |rows|
  {
    if rows == [] then i else MarkedBy(if rows[0].Some? then Marked(i, rows[0].value) else i, rows[1..])
  }

  lemma {:induction false} MarkingWidens(i: Intent, rows: Rows)
    ensures WidenedBy(i, MarkedBy(i, rows), rows)
    decreases |rows|
  {
    if rows != [] {
      var next := if rows[0].Some? then Marked(i, rows[0].value) else i;
      var w := MarkedBy(next, rows[1..]);
      MarkingWidens(next, rows[1..]);
      assert forall k :: 0 < k < |rows| ==> rows[k] == rows[1..][k - 1];
      assert forall k :: 0 <= k < |rows| - 1 ==> rows[1..][k] == rows[k + 1];
    }
  }

  lemma {:induction false} WideningKeepsDue(i: Intent, high: int, low: int, rows: Rows, first: int)
    ensures FirstDue(i.(high := high, low := low), rows, first) == FirstDue(i, rows, first)
    decreases |rows|
  {
    if rows != [] {
      WideningKeepsDue(i, high, low, rows[1..], first + 1);
    }
  }

  /* The row records the end of this intent, at the first bar that is due, from its widened watermarks. */
  ghost predicate RecordsEnd(r: Result, i: Intent, rows: Rows, first: int) {
    var m := FirstDue(i, rows, first);
    && m < |rows|
    && Dictated(r, MarkedBy(i, rows[..m + 1]), rows[m].value, first + m)
  }

  /* The intent in a slot after one row, if it is still there. */
  function Seen(i: Intent, row: Option<BarRow>): Intent {
    if row.Some? then Marked(i, row.value) else i
  }

  lemma {:induction false} OneRow(s: Slots, h: seq<Result>, row: Option<BarRow>, bar: int, k: nat)
    requires k < |s|
    ensures var t := ScanOne(s, h, row, bar).0;
            && |t| == |s|
            && (s[k] == None ==> t[k] == None)
            && (s[k].Some? ==> t[k] == if row.Some? && !NotDue(s[k].value, row.value, bar) then None
                                       else Some(Seen(s[k].value, row)))
  {
    if s[k].Some? && row.Some? {
      ScannedIsDictated(Marked(s[k].value, row.value), row.value, bar);
    }
  }

  lemma {:induction false} GoneStaysGone(s: Slots, h: seq<Result>, rows: Rows, first: int, k: nat)
    requires k < |s| && s[k] == None
    ensures var t := ScanRows(s, h, rows, first).0; |t| == |s| && t[k] == None
    decreases |rows|
  {
    if rows != [] {
      var (t, g) := ScanOne(s, h, rows[0], first);
      OneRow(s, h, rows[0], first, k);
      GoneStaysGone(t, g, rows[1..], first + 1, k);
    }
  }

  /** An intent that no bar read touches and whose time is not up stays open, watermarks widened; any other leaves. */
  lemma {:induction false} SlotFate(s: Slots, h: seq<Result>, rows: Rows, first: int, k: nat)
    requires k < |s| && s[k].Some?
    ensures var t := ScanRows(s, h, rows, first).0;
            && |t| == |s|
            && (FirstDue(s[k].value, rows, first) == |rows| ==> t[k] == Some(MarkedBy(s[k].value, rows)))
            && (FirstDue(s[k].value, rows, first) < |rows| ==> t[k] == None)
    decreases |rows|
  {
    if rows != [] {
      var i := s[k].value;
      var (t, g) := ScanOne(s, h, rows[0], first);
      OneRow(s, h, rows[0], first, k);
      if t[k] == None {
        GoneStaysGone(t, g, rows[1..], first + 1, k);
      } else {
        var next := Seen(i, rows[0]);
        WideningKeepsDue(i, next.high, next.low, rows[1..], first + 1);
        SlotFate(t, g, rows[1..], first + 1, k);
      }
    }
  }

  /* ---- the rows recorded ---- */

  lemma {:induction false} ScanRecordsEachHit(s: Slots, b: BarRow, bar: int, k: nat)
    requires k < |s| && s[k].Some? && Resolves(s[k].value, b, bar)
    ensures Scanned(s[k].value, b, bar) in ScanResults(s, b, bar)
    decreases |s|
  {
    var n := |s| - 1;
    if k < n {
      ScanRecordsEachHit(s[..n], b, bar, k);
    }
  }

  ghost predicate HitAt(s: Slots, b: BarRow, bar: int, r: Result, k: nat) {
    k < |s| && s[k].Some? && Resolves(s[k].value, b, bar) && r == Scanned(s[k].value, b, bar)
  }

  lemma {:induction false} ScanRecordsOnlyHits(s: Slots, b: BarRow, bar: int, r: Result) returns (k: nat)
    requires r in ScanResults(s, b, bar)
    ensures HitAt(s, b, bar, r, k)
    decreases |s|
  {
    var n := |s| - 1;
    if s[n].Some? && Resolves(s[n].value, b, bar) && r == Scanned(s[n].value, b, bar) {
      k := n;
    } else {
      k := ScanRecordsOnlyHits(s[..n], b, bar, r);
    }
  }

  lemma {:induction false} RecordedNow(i: Intent, rows: Rows, first: int)
    requires rows != [] && rows[0].Some? && !NotDue(i, rows[0].value, first)
    ensures RecordsEnd(Scanned(Marked(i, rows[0].value), rows[0].value, first), i, rows, first)
  {
    var b := rows[0].value;
    ScannedIsDictated(Marked(i, b), b, first);
    assert rows[..1] == [rows[0]] && rows[..1][1..] == [];
    assert MarkedBy(i, rows[..1]) == MarkedBy(Marked(i, b), []) == Marked(i, b);
  }

  lemma {:induction false} RecordedLater(r: Result, i: Intent, rows: Rows, first: int)
    requires rows != [] && (rows[0].Some? ==> NotDue(i, rows[0].value, first))
    requires RecordsEnd(r, Seen(i, rows[0]), rows[1..], first + 1)
    ensures RecordsEnd(r, i, rows, first)
  {
    var next := Seen(i, rows[0]);
    WideningKeepsDue(i, next.high, next.low, rows[1..], first + 1);
    var m := FirstDue(i, rows[1..], first + 1);
    var part := rows[..m + 2];
    assert part[0] == rows[0] && part[1..] == rows[1..][..m + 1];
    assert MarkedBy(i, part) == MarkedBy(next, part[1..]);
  }

  /* The end of the intent in one of the slots. */
  ghost predicate RecordsSlot(r: Result, s: Slots, rows: Rows, first: int, k: nat) {
    k < |s| && s[k].Some? && RecordsEnd(r, s[k].value, rows, first)
  }

  lemma {:induction false} FirstScanRecords(s: Slots, h: seq<Result>, rows: Rows, first: int, r: Result)
      returns (k: nat)
    requires rows != [] && rows[0].Some? && r in ScanResults(MarkAll(s, rows[0].value), rows[0].value, first)
    ensures RecordsSlot(r, s, rows, first, k)
  {
    var b := rows[0].value;
    k := ScanRecordsOnlyHits(MarkAll(s, b), b, first, r);
    ScannedIsDictated(Marked(s[k].value, b), b, first);
    RecordedNow(s[k].value, rows, first);
  }

  /** Every row a notification records is the end of an intent that was open: its first due bar dictates it. */
  lemma {:induction false} OnlyDueIsRecorded(s: Slots, h: seq<Result>, rows: Rows, first: int, j: nat)
      returns (k: nat)
    requires |h| <= j < |ScanRows(s, h, rows, first).1|
    ensures h <= ScanRows(s, h, rows, first).1
    ensures RecordsSlot(ScanRows(s, h, rows, first).1[j], s, rows, first, k)
    decreases |rows|
  {
    var (t, g) := ScanOne(s, h, rows[0], first);
    HistoryGrows(t, g, rows[1..], first + 1);
    var r := ScanRows(s, h, rows, first).1[j];
    if j < |g| {
      assert r == g[j] == ScanResults(MarkAll(s, rows[0].value), rows[0].value, first)[j - |h|];
      k := FirstScanRecords(s, h, rows, first, r);
    } else {
      k := OnlyDueIsRecorded(t, g, rows[1..], first + 1, j);
      OneRow(s, h, rows[0], first, k);
      RecordedLater(r, s[k].value, rows, first);
    }
  }

  lemma {:induction false} HistoryGrows(s: Slots, h: seq<Result>, rows: Rows, first: int)
    ensures h <= ScanRows(s, h, rows, first).1
    decreases |rows|
  {
    if rows != [] {
      var (t, g) := ScanOne(s, h, rows[0], first);
      HistoryGrows(t, g, rows[1..], first + 1);
    }
  }

  /** And every open intent that is due at some bar has its end recorded. */
  lemma {:induction false} DueIsRecorded(s: Slots, h: seq<Result>, rows: Rows, first: int, k: nat) returns (j: nat)
    requires k < |s| && s[k].Some? && FirstDue(s[k].value, rows, first) < |rows|
    ensures |h| <= j < |ScanRows(s, h, rows, first).1|
    ensures RecordsEnd(ScanRows(s, h, rows, first).1[j], s[k].value, rows, first)
    decreases |rows|
  {
    var i := s[k].value;
    var (t, g) := ScanOne(s, h, rows[0], first);
    HistoryGrows(t, g, rows[1..], first + 1);
    OneRow(s, h, rows[0], first, k);
    if rows[0].Some? && !NotDue(i, rows[0].value, first) {
      var b := rows[0].value;
      ScannedIsDictated(Marked(i, b), b, first);
      ScanRecordsEachHit(MarkAll(s, b), b, first, k);
      var x :| 0 <= x < |ScanResults(MarkAll(s, b), b, first)|
            && ScanResults(MarkAll(s, b), b, first)[x] == Scanned(Marked(i, b), b, first);
      j := |h| + x;
      RecordedNow(i, rows, first);
    } else {
      var next := Seen(i, rows[0]);
      WideningKeepsDue(i, next.high, next.low, rows[1..], first + 1);
      j := DueIsRecorded(t, g, rows[1..], first + 1, k);
      RecordedLater(ScanRows(s, h, rows, first).1[j], i, rows, first);
    }
  }
}
