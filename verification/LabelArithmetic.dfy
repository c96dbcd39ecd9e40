/**
 What the floor-divided barrier prices and the floor-divided profit mean for a resolved intent.
 */
module LabelArithmetic {
  import opened Options
  import opened Modulo
  import opened DollarBars
  import opened TripleBarrier

  /* A real position: long or short, from a positive price, with barriers on the right sides. */
  ghost predicate Placed(entry: int, side: int, tpBps: int, slBps: int) {
    entry > 0 && (side == 1 || side == -1) && tpBps >= 0 && slBps >= 0
  }

  /* An intent that was so registered and whose watermarks have only been widened since. */
  ghost predicate Watched(i: Intent, tpBps: int, slBps: int) {
    && Placed(i.entry, i.side, tpBps, slBps)
    && i.low <= i.entry <= i.high
    && i.tp == Registered(i.id, i.entry, i.side, tpBps, slBps, i.maxBars, i.entryBar).tp
    && i.sl == Registered(i.id, i.entry, i.side, tpBps, slBps, i.maxBars, i.entryBar).sl
  }

  lemma {:induction false} WatchedFromTheStart(id: int, entry: int, side: int, tpBps: int, slBps: int, maxBars: int,
                                               bar: int)
    requires Placed(entry, side, tpBps, slBps)
    ensures Watched(Registered(id, entry, side, tpBps, slBps, maxBars, bar), tpBps, slBps)
  {
  }

  lemma {:induction false} MarkingKeepsWatched(i: Intent, b: BarRow, tpBps: int, slBps: int)
    requires Watched(i, tpBps, slBps)
    ensures Watched(Marked(i, b), tpBps, slBps)
    ensures Marked(i, b).high >= b.high && Marked(i, b).low <= b.low
  {
  }

  lemma {:induction false} TargetAboveEntry(entry: int, bps: int)
    requires entry > 0 && bps >= 0
    ensures (entry * (BPS + bps)) / BPS >= entry
    ensures (entry * (BPS - bps)) / BPS <= entry
  {
    assert entry * bps >= 0;
    assert entry * (BPS + bps) == entry * BPS + entry * bps;
    assert entry * (BPS - bps) == entry * BPS - entry * bps;
  }

  /* ---- what the two nested floor divisions do to the reported profit ---- */

  /* A barrier `bps` basis points away, in price units rounded down, against the exact distance. */
  lemma {:induction false} DistanceAbove(entry: int, bps: int)
    ensures (entry * (BPS + bps)) / BPS - entry == (entry * bps) / BPS
    ensures ((entry * (BPS + bps)) / BPS - entry) * BPS == entry * bps - (entry * bps) % BPS
  {
    assert entry * (BPS + bps) == entry * BPS + entry * bps;
  }

  lemma {:induction false} DistanceBelow(entry: int, bps: int)
    ensures (entry - (entry * (BPS - bps)) / BPS) * BPS == entry * bps + (-(entry * bps)) % BPS
  {
    DistanceAbove(entry, -bps);
    assert entry * (-bps) == -(entry * bps);
  }

  /** A long stop-loss never reports a loss smaller than its distance, at any entry price. */
  lemma {:induction false} LongStopLossPnl(i: Intent, b: BarRow, tpBps: int, slBps: int)
    requires Watched(i, tpBps, slBps) && i.side == 1 && HitsSl(i, b)
    ensures PnlBps(i.entry, ExitPrice(i, b), i.side) <= -slBps
  {
    DistanceBelow(i.entry, slBps);
    var n := (ExitPrice(i, b) - i.entry) * BPS;
    assert (-slBps + 1) * i.entry == i.entry - i.entry * slBps;
    QuotientAtLeast(n, i.entry, -slBps + 1);
  }

  /* Rounding a short stop down to a price unit costs it less than one basis point of the entry. */
  predicate ShortStopFits(entry: int, slBps: int) {
    (entry * slBps) % BPS < entry
  }

  lemma {:induction false} ShortStopLossPnl(i: Intent, b: BarRow, tpBps: int, slBps: int)
    requires Watched(i, tpBps, slBps) && i.side == -1 && HitsSl(i, b)
    ensures ShortStopFits(i.entry, slBps) ==> PnlBps(i.entry, ExitPrice(i, b), i.side) <= -slBps
    ensures ExitPrice(i, b) == i.sl && PnlBps(i.entry, ExitPrice(i, b), i.side) <= -slBps ==>
            ShortStopFits(i.entry, slBps)
  {
    DistanceAbove(i.entry, slBps);
    var n := (i.entry - ExitPrice(i, b)) * BPS;
    assert (-slBps + 1) * i.entry == i.entry - i.entry * slBps;
    QuotientAtLeast(n, i.entry, -slBps + 1);
  }

  /* Every stop-loss exit at this entry, on any ordered bar, reports at least the distance of the stop. */
  ghost predicate StopsHonestly(entry: int, side: int, tpBps: int, slBps: int) {
    forall i, b :: Watched(i, tpBps, slBps) && i.entry == entry && i.side == side && OhlcOrdered(b) && HitsSl(i, b)
      ==> PnlBps(i.entry, ExitPrice(i, b), i.side) <= -slBps
  }

  /**
   The reported loss of a stopped position is never smaller than the distance of its stop exactly for
   longs, and for shorts whose stop loses less than one basis point of the entry to rounding.
   */
  lemma {:induction false} StopsHonestlyExactly(entry: int, side: int, tpBps: int, slBps: int)
    requires Placed(entry, side, tpBps, slBps)
    ensures StopsHonestly(entry, side, tpBps, slBps) <==> (side == 1 || ShortStopFits(entry, slBps))
  {
    forall i, b | Watched(i, tpBps, slBps) && i.entry == entry && i.side == side && HitsSl(i, b)
      ensures side == 1 || ShortStopFits(entry, slBps) ==> PnlBps(i.entry, ExitPrice(i, b), i.side) <= -slBps
    {
      if side == 1 {
        LongStopLossPnl(i, b, tpBps, slBps);
      } else {
        ShortStopLossPnl(i, b, tpBps, slBps);
      }
    }
    if side == -1 && StopsHonestly(entry, side, tpBps, slBps) {
      var i := Registered(0, entry, side, tpBps, slBps, 1, 0);
      var b := BarRow(0, 0, i.sl, i.sl, i.sl, i.sl, 0, 0, 0, 0, false);
      TargetAboveEntry(entry, slBps);
      assert Watched(i, tpBps, slBps) && OhlcOrdered(b) && HitsSl(i, b) && ExitPrice(i, b) == i.sl;
      ShortStopLossPnl(i, b, tpBps, slBps);
    }
  }

  /** The smallest price is one where the stop distance is lost. */
  lemma {:induction false} TinyPricesHideTheStop()
    ensures !StopsHonestly(1, -1, 0, 1)
  {
    StopsHonestlyExactly(1, -1, 0, 1);
  }

  /** A long take-profit reports its distance or one basis point less, exactly when rounding costs at most the entry. */
  lemma {:induction false} LongTakeProfitPnl(i: Intent, b: BarRow, tpBps: int, slBps: int)
    requires Watched(i, tpBps, slBps) && i.side == 1 && HitsTp(i, b) && !HitsSl(i, b)
    ensures PnlBps(i.entry, ExitPrice(i, b), i.side) in {tpBps - 1, tpBps} <==> (i.entry * tpBps) % BPS <= i.entry
    ensures PnlBps(i.entry, ExitPrice(i, b), i.side) == tpBps <==> (i.entry * tpBps) % BPS == 0
  {
    DistanceAbove(i.entry, tpBps);
    var n := (i.tp - i.entry) * BPS;
    assert (tpBps + 1) * i.entry == i.entry * tpBps + i.entry;
    assert (tpBps - 1) * i.entry == i.entry * tpBps - i.entry;
    assert tpBps * i.entry == i.entry * tpBps;
    QuotientAtLeast(n, i.entry, tpBps + 1);
    QuotientAtLeast(n, i.entry, tpBps);
    QuotientAtLeast(n, i.entry, tpBps - 1);
  }

  /** A short take-profit reports exactly its distance, exactly when rounding adds less than the entry. */
  lemma {:induction false} ShortTakeProfitPnl(i: Intent, b: BarRow, tpBps: int, slBps: int)
    requires Watched(i, tpBps, slBps) && i.side == -1 && HitsTp(i, b) && !HitsSl(i, b)
    ensures PnlBps(i.entry, ExitPrice(i, b), i.side) == tpBps <==> (-(i.entry * tpBps)) % BPS < i.entry
  {
    DistanceBelow(i.entry, tpBps);
    var n := (i.entry - i.tp) * BPS;
    assert (tpBps + 1) * i.entry == i.entry * tpBps + i.entry;
    assert tpBps * i.entry == i.entry * tpBps;
    QuotientAtLeast(n, i.entry, tpBps + 1);
    QuotientAtLeast(n, i.entry, tpBps);
  }

  /** From an entry of 10000 units on, every label reports what it promises. */
  lemma {:induction false} LabelsAreHonest(i: Intent, b: BarRow, tpBps: int, slBps: int)
    requires Watched(i, tpBps, slBps) && i.entry >= BPS
    ensures var pnl := PnlBps(i.entry, ExitPrice(i, b), i.side);
            && (HitsSl(i, b) ==> pnl <= -slBps)
            && (HitsTp(i, b) && !HitsSl(i, b) && i.side == 1 ==> pnl in {tpBps - 1, tpBps})
            && (HitsTp(i, b) && !HitsSl(i, b) && i.side == -1 ==> pnl == tpBps)
  {
    if HitsSl(i, b) {
      if i.side == 1 {
        LongStopLossPnl(i, b, tpBps, slBps);
      } else {
        ShortStopLossPnl(i, b, tpBps, slBps);
      }
    } else if HitsTp(i, b) {
      if i.side == 1 {
        LongTakeProfitPnl(i, b, tpBps, slBps);
      } else {
        ShortTakeProfitPnl(i, b, tpBps, slBps);
      }
    }
  }

  /** Whatever the outcome, the exit lies between the worst and the best price the intent has seen. */
  lemma {:induction false} ExitWithinExcursions(i: Intent, b: BarRow, bar: int, tpBps: int, slBps: int)
    requires Watched(i, tpBps, slBps) && b.low <= b.close <= b.high && Resolves(Marked(i, b), b, bar)
    ensures var r := Scanned(Marked(i, b), b, bar);
            -r.mae <= r.side * (r.exit - r.entry) <= r.mfe
  {
    MarkingKeepsWatched(i, b, tpBps, slBps);
    TargetAboveEntry(i.entry, tpBps);
    TargetAboveEntry(i.entry, slBps);
  }

  /* ---- whole scans ---- */

  ghost predicate IsWatched(i: Intent) {
    exists tpBps, slBps :: Watched(i, tpBps, slBps)
  }

  ghost predicate AllWatched(s: Slots) {
    forall k :: 0 <= k < |s| && s[k].Some? ==> IsWatched(s[k].value)
  }

  ghost predicate Bracketed(r: Result) {
    -r.mae <= r.side * (r.exit - r.entry) <= r.mfe
  }

  lemma {:induction false} ResultsAreBracketed(s: Slots, b: BarRow, bar: int)
    requires AllWatched(s) && b.low <= b.close <= b.high
    ensures forall j :: 0 <= j < |ScanResults(MarkAll(s, b), b, bar)| ==>
            Bracketed(ScanResults(MarkAll(s, b), b, bar)[j])
    decreases |s|
  {
    if s != [] {
      var n := |s| - 1;
      var marked := MarkAll(s, b);
      assert marked[..n] == MarkAll(s[..n], b);
      ResultsAreBracketed(s[..n], b, bar);
      if marked[n].Some? && Resolves(marked[n].value, b, bar) {
        var i := s[n].value;
        assert IsWatched(i);
        var tpBps, slBps :| Watched(i, tpBps, slBps);
        ExitWithinExcursions(i, b, bar, tpBps, slBps);
      }
    }
  }

  lemma {:induction false} SurvivorsStayWatched(s: Slots, b: BarRow, bar: int)
    requires AllWatched(s)
    ensures AllWatched(Survivors(MarkAll(s, b), b, bar))
  {
    var t := Survivors(MarkAll(s, b), b, bar);
    forall k | 0 <= k < |t| && t[k].Some?
      ensures IsWatched(t[k].value)
    {
      assert IsWatched(s[k].value);
      var tpBps, slBps :| Watched(s[k].value, tpBps, slBps);
      MarkingKeepsWatched(s[k].value, b, tpBps, slBps);
    }
  }

  ghost predicate RowsOrdered(rows: seq<Option<BarRow>>) {
    forall k :: 0 <= k < |rows| && rows[k].Some? ==> rows[k].value.low <= rows[k].value.close <= rows[k].value.high
  }

  /** Everything a notification records is bracketed by its own excursions, over any number of bars. */
  lemma {:induction false} NotificationIsBracketed(s: Slots, h: seq<Result>, rows: seq<Option<BarRow>>, first: int)
    requires AllWatched(s) && RowsOrdered(rows)
    ensures var (t, g) := ScanRows(s, h, rows, first);
            && AllWatched(t) && h <= g
            && forall j :: |h| <= j < |g| ==> Bracketed(g[j])
    decreases |rows|
  {
    if rows != [] {
      var (t, g) := ScanOne(s, h, rows[0], first);
      if rows[0].Some? {
        ResultsAreBracketed(s, rows[0].value, first);
        SurvivorsStayWatched(s, rows[0].value, first);
      }
      assert RowsOrdered(rows[1..]);
      NotificationIsBracketed(t, g, rows[1..], first + 1);
    }
  }

  /* ---- whole runs ---- */

  /* Registered with real arguments, notified of ordered bars. */
  ghost predicate Sane(e: Event) {
    match e
    case Register(entry, side, tpBps, slBps, _, _) => Placed(entry, side, tpBps, slBps)
    case Notify(rows, _) => RowsOrdered(rows)
  }

  ghost predicate DeskInv(d: Desk) {
    && AllWatched(d.slots)
    && forall j :: 0 <= j < |d.history| ==> Bracketed(d.history[j])
  }

  lemma {:induction false} AdmissionKeepsDesk(d: Desk, e: Event)
    requires e.Register? && Sane(e) && DeskInv(d)
    ensures DeskInv(Step(d, e))
  {
    var k := Placement(d.slots);
    if k < |d.slots| {
      WatchedFromTheStart(d.next, e.entry, e.side, e.tpBps, e.slBps, e.maxBars, e.bar);
      var i := Registered(d.next, e.entry, e.side, e.tpBps, e.slBps, e.maxBars, e.bar);
      assert IsWatched(i);
      if d.slots[k].Some? {
        assert IsWatched(d.slots[k].value);
        assert Bracketed(Evicted(d.slots[k].value, e.bar));
      }
    }
  }

  lemma {:induction false} StepKeepsDesk(d: Desk, e: Event)
    requires Sane(e) && DeskInv(d)
    ensures DeskInv(Step(d, e)) && d.history <= Step(d, e).history
  {
    match e
    case Register(_, _, _, _, _, _) => AdmissionKeepsDesk(d, e);
    case Notify(rows, first) => NotificationIsBracketed(d.slots, d.history, rows, first);
  }

  lemma {:induction false} RunKeepsDesk(d: Desk, es: seq<Event>)
    requires DeskInv(d) && forall i :: 0 <= i < |es| ==> Sane(es[i])
    ensures DeskInv(Run(d, es))
    decreases |es|
  {
    if es != [] {
      StepKeepsDesk(d, es[0]);
      assert forall i :: 0 <= i < |es| - 1 ==> es[1..][i] == es[i + 1];
      RunKeepsDesk(Step(d, es[0]), es[1..]);
    }
  }

  /**
   In every run of registrations and notifications from an empty labeler, every recorded exit lies between
   the worst and the best price its intent has seen, evictions included.
   */
  lemma {:induction false} EveryResultIsBracketed(cap: nat, es: seq<Event>)
    requires forall i :: 0 <= i < |es| ==> Sane(es[i])
    ensures var d := Run(EmptyDesk(cap), es);
            && AllWatched(d.slots)
            && forall j :: 0 <= j < |d.history| ==>
                -d.history[j].mae <= d.history[j].side * (d.history[j].exit - d.history[j].entry) <= d.history[j].mfe
  {
    RunKeepsDesk(EmptyDesk(cap), es);
    var d := Run(EmptyDesk(cap), es);
    assert forall j :: 0 <= j < |d.history| ==> Bracketed(d.history[j]);
  }

  /** Every row the engine hands out is ordered, the cleared one included: its prices are all zero. */
  lemma {:induction false} EngineRowsAreOrdered(engine: DollarBarEngine, first: int, n: nat)
    requires engine.Valid()
    ensures RowsOrdered(Reads(engine, first, n))
  {
    var rows := Reads(engine, first, n);
    forall k | 0 <= k < |rows| && rows[k].Some?
      ensures rows[k].value.low <= rows[k].value.close <= rows[k].value.high
    {
      var j := first + k;
      assert rows[k] == engine.ReadRow(j);
      if j == engine.barCount - engine.capacity {
        SlotMinusCapacity(engine.barCount, engine.capacity);
      } else {
        assert rows[k] == Some(engine.bars[j]) && OhlcOrdered(engine.bars[j]);
      }
    }
  }

  /** So whatever bars the engine names in a notification, what the labeler records is bracketed. */
  lemma {:induction false} EngineNotificationIsBracketed(engine: DollarBarEngine, first: int, n: nat, s: Slots,
                                                         h: seq<Result>)
    requires engine.Valid() && AllWatched(s)
    ensures var (t, g) := ScanRows(s, h, Reads(engine, first, n), first);
            && AllWatched(t) && h <= g
            && forall j :: |h| <= j < |g| ==> Bracketed(g[j])
  {
    EngineRowsAreOrdered(engine, first, n);
    NotificationIsBracketed(s, h, Reads(engine, first, n), first);
  }

  /* Neither barrier is touched by the bar, and the time is not up. */
  ghost predicate NotDue(i: Intent, b: BarRow, bar: int) {
    && (i.side > 0 ==> i.sl < b.low && b.high < i.tp)
    && (i.side < 0 ==> i.tp < b.low && b.high < i.sl)
    && bar - i.entryBar < i.maxBars
  }

  /** After scanning up to bar `b`, whoever is still open was open before, untouched by `b`, and within its time. */
  lemma {:induction false} NothingDueStaysOpen(s: Slots, h: seq<Result>, rows: seq<Option<BarRow>>, first: int)
    requires rows != [] && rows[|rows| - 1].Some?
    ensures var t := ScanRows(s, h, rows, first).0;
            && |t| == |s|
            && forall k :: 0 <= k < |t| && t[k].Some? ==>
                 s[k].Some? && s[k].value.id == t[k].value.id
                 && NotDue(t[k].value, rows[|rows| - 1].value, first + |rows| - 1)
    decreases |rows|
  {
    var (t, g) := ScanOne(s, h, rows[0], first);
    if |rows| == 1 {
      assert ScanRows(t, g, rows[1..], first + 1) == (t, g);
    } else {
      NothingDueStaysOpen(t, g, rows[1..], first + 1);
    }
  }

  /**
   What a notification of more bars than the ring holds reads for its oldest bar: the cleared slot, with
   all prices zero. Whatever distance a barrier has (up to the whole entry), that row stops out every
   long at a price of zero, and takes the profit of every short.
   */
  lemma {:induction false} ClearedRowResolvesEverything(i: Intent, b: BarRow, bar: int, tpBps: int, slBps: int)
    requires Watched(i, tpBps, slBps) && tpBps <= BPS && slBps <= BPS
    requires b.(synthetic := false) == ZERO_ROW
    ensures i.side == 1 ==>
            Label(i, b) == -1 && ExitPrice(i, b) == 0 && PnlBps(i.entry, ExitPrice(i, b), i.side) == -BPS
    ensures i.side == -1 ==> Label(i, b) == 1 && ExitPrice(i, b) == i.tp
  {
    assert i.entry * (BPS - slBps) >= 0 && i.entry * (BPS - tpBps) >= 0;
    assert (-BPS) * i.entry == -(i.entry * BPS);
    TargetAboveEntry(i.entry, slBps);
    if i.side == 1 {
      DivisionIs((0 - i.entry) * BPS, i.entry, -BPS, 0);
    }
  }

  /** The labeler reads that row exactly when one notification covers the whole ring or more. */
  lemma {:induction false} LongNotificationReadsClearedRow(engine: DollarBarEngine, first: nat, produced: nat)
    requires engine.Valid() && first + produced == engine.barCount && produced >= engine.capacity
    ensures var k := produced - engine.capacity;
            var rows := Reads(engine, first, produced);
            && rows[k].Some? && rows[k].value.(synthetic := false) == ZERO_ROW
            && rows[k] != Some(engine.bars[first + k])
            && forall j :: 0 <= j < k ==> rows[j] == None
  {
    SlotMinusCapacity(engine.barCount, engine.capacity);
    assert OhlcOrdered(engine.bars[first + produced - engine.capacity]);
  }
}
