/**
 Triple-barrier labelling: open intents in a fixed number of slots, resolved bar by bar with the
 pessimistic priority stop-loss, then take-profit, then time-out, into a ring of results.

 The source keeps one array per intent field; here a slot holds the whole intent. Label callbacks are
 not part of the model.
 */
module TripleBarrier {
  import opened Options
  import opened Modulo
  import opened DollarBars

  datatype Intent = Intent(id: int, entry: int, tp: int, sl: int, entryBar: int, maxBars: int, side: int,
                           high: int, low: int)

  type Slots = seq<Option<Intent>>

  datatype Result = Result(id: int, outcome: int, entry: int, exit: int, entryBar: int, exitBar: int, side: int,
                           barsHeld: int, mfe: int, mae: int, pnlBps: int)

  const BPS: int := 10_000

  /** The intent as registered: absolute barrier prices, floor-divided. */
  function Registered(id: int, entry: int, side: int, tpBps: int, slBps: int, maxBars: int, bar: int): Intent {
    Intent(id, entry,
           if side > 0 then (entry * (BPS + tpBps)) / BPS else (entry * (BPS - tpBps)) / BPS,
           if side > 0 then (entry * (BPS - slBps)) / BPS else (entry * (BPS + slBps)) / BPS,
           bar, maxBars, side, entry, entry)
  }

  /** The watermark update of one bar. */
  function Marked(i: Intent, b: BarRow): Intent {
    i.(high := if b.high > i.high then b.high else i.high, low := if b.low < i.low then b.low else i.low)
  }

  predicate HitsTp(i: Intent, b: BarRow) {
    (i.side > 0 && b.high >= i.tp) || (i.side < 0 && b.low <= i.tp)
  }

  predicate HitsSl(i: Intent, b: BarRow) {
    (i.side > 0 && b.low <= i.sl) || (i.side < 0 && b.high >= i.sl)
  }

  predicate TimesOut(i: Intent, bar: int) {
    bar - i.entryBar >= i.maxBars
  }

  predicate Resolves(i: Intent, b: BarRow, bar: int) {
    HitsTp(i, b) || HitsSl(i, b) || TimesOut(i, bar)
  }

  function ExitPrice(i: Intent, b: BarRow): int {
    if HitsSl(i, b) then
      if i.side > 0 then (if b.low < i.sl then b.low else i.sl) else (if b.high > i.sl then b.high else i.sl)
    else if HitsTp(i, b) then i.tp
    else b.close
  }

  function Label(i: Intent, b: BarRow): int {
    if HitsSl(i, b) then -1 else if HitsTp(i, b) then 1 else 0
  }

  function PnlBps(entry: int, exit: int, side: int): int {
    if entry <= 0 then 0
    else if side > 0 then ((exit - entry) * BPS) / entry
    else ((entry - exit) * BPS) / entry
  }

  function Mfe(i: Intent): int { if i.side > 0 then i.high - i.entry else i.entry - i.low }

  function Mae(i: Intent): int { if i.side > 0 then i.entry - i.low else i.high - i.entry }

  /** The result row of a scanned intent, from its updated watermarks. */
  function Scanned(i: Intent, b: BarRow, bar: int): Result {
    Result(i.id, Label(i, b), i.entry, ExitPrice(i, b), i.entryBar, bar, i.side, bar - i.entryBar,
           Mfe(i), Mae(i), PnlBps(i.entry, ExitPrice(i, b), i.side))
  }

  /** The result row of a forced eviction. */
  function Evicted(i: Intent, bar: int): Result {
    Result(i.id, 0, i.entry, i.entry, i.entryBar, bar, i.side, bar - i.entryBar, Mfe(i), Mae(i), 0)
  }

  /* ---- counting and identity ---- */

  function Open(s: Slots): nat {
    if s == [] then 0 else (if s[0].Some? then 1 else 0) + Open(s[1..])
  }

  lemma {:induction false} OpenUpdate(s: Slots, k: nat, v: Option<Intent>)
    requires k < |s|
    ensures Open(s[k := v]) == Open(s) - (if s[k].Some? then 1 else 0) + (if v.Some? then 1 else 0)
    decreases |s|
  {
    if k == 0 {
      assert s[k := v][1..] == s[1..];
    } else {
      assert s[k := v][1..] == s[1..][k - 1 := v];
      OpenUpdate(s[1..], k - 1, v);
    }
  }

  lemma {:induction false} OpenZero(s: Slots)
    ensures Open(s) == 0 <==> forall k :: 0 <= k < |s| ==> s[k] == None
    decreases |s|
  {
    if s != [] {
      OpenZero(s[1..]);
      assert forall k :: 1 <= k < |s| ==> s[k] == s[1..][k - 1];
      assert forall k :: 0 <= k < |s| - 1 ==> s[1..][k] == s[k + 1];
    }
  }

  ghost predicate Active(s: Slots, id: int) {
    exists k :: 0 <= k < |s| && s[k].Some? && s[k].value.id == id
  }

  ghost predicate Recorded(h: seq<Result>, id: int) {
    exists j :: 0 <= j < |h| && h[j].id == id
  }

  /* Every id below `next` is either active in exactly one slot or recorded exactly once, never both. */
  ghost predicate Accounted(s: Slots, h: seq<Result>, next: int) {
    && (forall k, l :: 0 <= k < |s| && 0 <= l < |s| && s[k].Some? && s[l].Some? && s[k].value.id == s[l].value.id
          ==> k == l)
    && (forall i, j :: 0 <= i < |h| && 0 <= j < |h| && h[i].id == h[j].id ==> i == j)
    && (forall id :: Active(s, id) ==> !Recorded(h, id))
    && (forall id :: 0 <= id < next <==> Active(s, id) || Recorded(h, id))
    && next == |h| + Open(s)
  }

  /** Registering a new intent in a free slot keeps the books. */
  lemma {:induction false} RegisterKeepsAccounts(s: Slots, h: seq<Result>, next: int, k: nat, i: Intent)
    requires Accounted(s, h, next) && k < |s| && s[k] == None && i.id == next
    ensures Accounted(s[k := Some(i)], h, next + 1)
  {
    var t := s[k := Some(i)];
    OpenUpdate(s, k, Some(i));
    assert !Active(s, next) && !Recorded(h, next);
    forall id
      ensures Active(t, id) <==> Active(s, id) || id == next
    {
      if Active(s, id) {
        var l :| 0 <= l < |s| && s[l].Some? && s[l].value.id == id;
        assert t[l] == s[l];
      }
      if id == next { assert t[k].value.id == id; }
      if Active(t, id) && id != next {
        var l :| 0 <= l < |t| && t[l].Some? && t[l].value.id == id;
        assert t[l] == s[l];
      }
    }
    forall l | 0 <= l < |s| && s[l].Some?
      ensures s[l].value.id != next
    {
      assert Active(s, s[l].value.id);
    }
  }

  /** Recording the result of one slot and freeing it keeps the books. */
  lemma {:induction false} ResolveKeepsAccounts(s: Slots, h: seq<Result>, next: int, k: nat, r: Result)
    requires Accounted(s, h, next) && k < |s| && s[k].Some? && r.id == s[k].value.id
    ensures Accounted(s[k := None], h + [r], next)
  {
    var t, g := s[k := None], h + [r];
    OpenUpdate(s, k, None);
    assert Active(s, r.id);
    forall id
      ensures Active(t, id) <==> Active(s, id) && id != r.id
    {
      if Active(s, id) && id != r.id {
        var l :| 0 <= l < |s| && s[l].Some? && s[l].value.id == id;
        assert t[l] == s[l];
      }
      if Active(t, id) {
        var l :| 0 <= l < |t| && t[l].Some? && t[l].value.id == id;
        assert t[l] == s[l] && l != k;
      }
    }
    forall id
      ensures Recorded(g, id) <==> Recorded(h, id) || id == r.id
    {
      if Recorded(h, id) {
        var j :| 0 <= j < |h| && h[j].id == id;
        assert g[j] == h[j];
      }
      if id == r.id { assert g[|h|] == r; }
    }
    forall i, j | 0 <= i < |g| && 0 <= j < |g| && g[i].id == g[j].id
      ensures i == j
    {
      assert forall l :: 0 <= l < |h| ==> g[l] == h[l] && Recorded(h, h[l].id);
    }
  }

  /* Replacing intents in place by intents with the same ids. */
  lemma {:induction false} MarkKeepsAccounts(s: Slots, h: seq<Result>, next: int, t: Slots)
    requires Accounted(s, h, next) && SameIds(s, t)
    ensures Accounted(t, h, next)
  {
    SameIdsSameOpen(s, t);
    forall id
      ensures Active(t, id) <==> Active(s, id)
    {
      if Active(s, id) {
        var l :| 0 <= l < |s| && s[l].Some? && s[l].value.id == id;
        assert t[l].Some? && t[l].value.id == id;
      }
      if Active(t, id) {
        var l :| 0 <= l < |t| && t[l].Some? && t[l].value.id == id;
        assert s[l].Some? && s[l].value.id == id;
      }
    }
  }

  ghost predicate SameIds(s: Slots, t: Slots) {
    && |s| == |t|
    && forall k :: 0 <= k < |s| ==> (s[k].Some? <==> t[k].Some?) && (s[k].Some? ==> s[k].value.id == t[k].value.id)
  }

  lemma {:induction false} SameIdsSameOpen(s: Slots, t: Slots)
    requires SameIds(s, t)
    ensures Open(s) == Open(t)
    decreases |s|
  {
    if s != [] {
      assert SameIds(s[1..], t[1..]) by {
        assert forall k :: 0 <= k < |s| - 1 ==> s[1..][k] == s[k + 1] && t[1..][k] == t[k + 1];
      }
      SameIdsSameOpen(s[1..], t[1..]);
    }
  }

  /* ---- one scan as a value ---- */

  function MarkAll(s: Slots, b: BarRow): (t: Slots)
    ensures |t| == |s|
    ensures forall k :: 0 <= k < |s| ==> t[k] == if s[k].Some? then Some(Marked(s[k].value, b)) else None
  {
    seq(|s|, k requires 0 <= k < |s| => if s[k].Some? then Some(Marked(s[k].value, b)) else None)
  }

  /** The slots left open by a scan: those that neither touch a barrier nor time out. */
  function Survivors(s: Slots, b: BarRow, bar: int): (t: Slots)
    ensures |t| == |s|
    ensures forall k :: 0 <= k < |s| ==> t[k] == if s[k].Some? && !Resolves(s[k].value, b, bar) then s[k] else None
  {
    seq(|s|, k requires 0 <= k < |s| => if s[k].Some? && !Resolves(s[k].value, b, bar) then s[k] else None)
  }

  /** The rows a scan records, in slot order. */
  function ScanResults(s: Slots, b: BarRow, bar: int): seq<Result> {
    if s == [] then []
    else
      var before := ScanResults(s[..|s| - 1], b, bar);
      var last := s[|s| - 1];
      if last.Some? && Resolves(last.value, b, bar) then before + [Scanned(last.value, b, bar)] else before
  }

  /** Scanning a run of bar reads, skipping the unreadable ones. */
  function ScanRows(s: Slots, h: seq<Result>, rows: seq<Option<BarRow>>, first: int): (Slots, seq<Result>)
    decreases |rows|
  {
    if rows == [] then (s, h)
    else
      var (t, g) := ScanOne(s, h, rows[0], first);
      ScanRows(t, g, rows[1..], first + 1)
  }

  lemma {:induction false} ScanNext(s: Slots, h: seq<Result>, rows: seq<Option<BarRow>>, first: int, k: nat)
    requires k < |rows|
    ensures var (t, g) := ScanOne(s, h, rows[k], first + k);
            ScanRows(s, h, rows[k..], first + k) == ScanRows(t, g, rows[k + 1..], first + (k + 1))
  {
    assert rows[k..][0] == rows[k] && rows[k..][1..] == rows[k + 1..];
  }

  lemma {:induction false} NothingToScan(s: Slots, b: BarRow, bar: int)
    requires Open(s) == 0
    ensures MarkAll(s, b) == s && Survivors(s, b, bar) == s && ScanResults(s, b, bar) == []
    decreases |s|
  {
    OpenZero(s);
    if s != [] {
      OpenZero(s[..|s| - 1]);
      NothingToScan(s[..|s| - 1], b, bar);
    }
  }

  lemma {:induction false} NothingToScanAtAll(s: Slots, h: seq<Result>, rows: seq<Option<BarRow>>, first: int)
    requires Open(s) == 0
    ensures ScanRows(s, h, rows, first) == (s, h)
    decreases |rows|
  {
    if rows != [] {
      if rows[0].Some? {
        NothingToScan(s, rows[0].value, first);
        assert h + [] == h;
      }
      NothingToScanAtAll(s, h, rows[1..], first + 1);
    }
  }

  /* ---- which slot a new intent takes ---- */

  /** The first free slot, or the size of a full table. */
  function FirstFreeOf(s: Slots): (k: nat)
    ensures k <= |s| && (k < |s| ==> s[k] == None) && forall l :: 0 <= l < k ==> s[l].Some?
  {
    if s == [] || s[0].None? then 0
    else
      var k := FirstFreeOf(s[1..]);
      assert forall l :: 0 < l < 1 + k ==> s[l] == s[1..][l - 1];
      1 + k
  }

  lemma {:induction false} FirstFreeIs(s: Slots, k: nat)
    requires k <= |s| && (k < |s| ==> s[k] == None) && forall l :: 0 <= l < k ==> s[l].Some?
    ensures FirstFreeOf(s) == k
  {
    assert FirstFreeOf(s) <= k <= FirstFreeOf(s);
  }

  /* Emptying one slot of a full table makes it the first free one. */
  lemma {:induction false} FreedSlotIsFirst(s: Slots, k: nat)
    requires FirstFreeOf(s) == |s| && k < |s|
    ensures FirstFreeOf(s[k := None]) == k
  {
    FirstFreeIs(s[k := None], k);
  }

  /* Slot k holds the lowest entry bar among the first `n` slots, and the first of those that do. */
  ghost predicate OldestAmong(s: Slots, n: nat, k: nat) {
    && k < n <= |s| && s[k].Some?
    && (forall l :: 0 <= l < n && s[l].Some? ==> s[k].value.entryBar <= s[l].value.entryBar)
    && (forall l :: 0 <= l < k && s[l].Some? ==> s[k].value.entryBar < s[l].value.entryBar)
  }

  /** The first slot with the lowest entry bar, or the size of an empty table. */
  function OldestOf(s: Slots): (k: nat)
    ensures k <= |s|
    ensures k < |s| ==> OldestAmong(s, |s|, k)
    ensures k == |s| ==> forall l :: 0 <= l < |s| ==> s[l] == None
  {
    if s == [] then 0
    else
      var k := OldestOf(s[1..]);
      assert forall l :: 0 < l < |s| ==> s[l] == s[1..][l - 1];
      if s[0].Some? && (k == |s| - 1 || s[0].value.entryBar <= s[1 + k].value.entryBar) then 0 else 1 + k
  }

  lemma {:induction false} OldestIs(s: Slots, k: nat)
    requires k < |s| ==> OldestAmong(s, |s|, k)
    requires k >= |s| ==> k == |s| && forall l :: 0 <= l < |s| ==> s[l] == None
    ensures OldestOf(s) == k
  {
    assert OldestOf(s) <= k <= OldestOf(s);
  }

  /* ---- the labeler as a value ---- */

  datatype Desk = Desk(slots: Slots, history: seq<Result>, next: nat)

  datatype Event =
    | Register(entry: int, side: int, tpBps: int, slBps: int, maxBars: int, bar: int)
    | Notify(rows: seq<Option<BarRow>>, first: int)

  function EmptyDesk(cap: nat): Desk {
    Desk(seq(cap, _ => None), [], 0)
  }

  function Placement(s: Slots): nat {
    if FirstFreeOf(s) < |s| then FirstFreeOf(s) else OldestOf(s)
  }

  /** A new intent takes its slot; whoever held it is recorded as evicted. */
  function Admitted(d: Desk, entry: int, side: int, tpBps: int, slBps: int, maxBars: int, bar: int): Desk {
    var k := Placement(d.slots);
    if k >= |d.slots| then d
    else
      Desk(d.slots[k := Some(Registered(d.next, entry, side, tpBps, slBps, maxBars, bar))],
           d.history + Displaced(d.slots, k, bar), d.next + 1)
  }

  function Step(d: Desk, e: Event): Desk {
    match e
    case Register(entry, side, tpBps, slBps, maxBars, bar) => Admitted(d, entry, side, tpBps, slBps, maxBars, bar)
    case Notify(rows, first) =>
      var (t, g) := ScanRows(d.slots, d.history, rows, first);
      d.(slots := t, history := g)
  }

  function Run(d: Desk, es: seq<Event>): Desk
    decreases |es|
  {
    if es == [] then d else Run(Step(d, es[0]), es[1..])
  }

  class TripleBarrierLabeler {
    const cap: nat
    const engine: DollarBarEngine
    const slots: array<Option<Intent>>
    const resCap: nat
    const results: array<Result>
    var resHead: nat
    var resCount: nat
    var openCount: int
    var nextId: nat
    /* Every result ever recorded, in order. */
    ghost var history: seq<Result>

    ghost predicate Shape()
      reads this
    {
      && slots.Length == cap && results.Length == resCap && resCap > 0
      && resCount == |history| && resHead == Slot(resCount, resCap)
    }

    ghost predicate ResultsHold()
      requires Shape()
      reads this, results
    {
      forall j :: 0 <= j < resCount && resCount - resCap <= j ==> results[Slot(j, resCap)] == history[j]
    }

    ghost predicate Valid()
      reads this, slots, results
    {
      && Shape() && ResultsHold()
      && openCount == Open(slots[..]) && Accounted(slots[..], history, nextId)
    }

    ghost function State(): Desk
      reads this, slots
    {
      Desk(slots[..], history, nextId)
    }

    constructor (engine: DollarBarEngine, maxOpen: nat, resultsCapacity: nat)
      requires resultsCapacity > 0
      ensures Valid() && State() == EmptyDesk(maxOpen)
      ensures this.engine == engine && cap == maxOpen && fresh(slots) && fresh(results)
    {
      this.engine, cap, resCap := engine, maxOpen, resultsCapacity;
      slots := new Option<Intent>[maxOpen](_ => None);
      results := new Result[resultsCapacity](_ => Result(0, 0, 0, 0, 0, 0, 0, 0, 0, 0, 0));
      resHead, resCount, openCount, nextId, history := 0, 0, 0, 0, [];
      new;
      SmallSlot(0, resCap);
      OpenZero(slots[..]);
    }

    /** Write one row into the results ring. */
    method Record(r: Result)
      requires Shape() && ResultsHold()
      modifies this`resHead, this`resCount, this`history, results
      ensures Shape() && ResultsHold() && history == old(history) + [r]
    {
      ghost var n := resCount;
      forall j | 0 <= j < n && n + 1 - resCap <= j
        ensures Slot(j, resCap) != resHead
      {
        SlotsApart(j, n, resCap);
      }
      results[resHead] := r;
      NextSlot(n, resCap);
      WrapOnce(Slot(n, resCap), resCap);
      resHead := (resHead + 1) % resCap;
      resCount := resCount + 1;
      history := history + [r];
    }

    /** Resolve the intent of one slot with the given row. */
    method Resolve(k: nat, r: Result)
      requires Valid() && k < cap && slots[k].Some? && r.id == slots[k].value.id
      modifies this`resHead, this`resCount, this`history, this`openCount, slots, results
      ensures Valid() && history == old(history) + [r] && slots[..] == old(slots[..])[k := None]
    {
      ResolveKeepsAccounts(slots[..], history, nextId, k, r);
      OpenUpdate(slots[..], k, None);
      Record(r);
      slots[k] := None;
      openCount := openCount - 1;
      assert slots[..] == old(slots[..])[k := None];
    }

    method FirstFree() returns (k: nat)
      requires slots.Length == cap
      ensures k == FirstFreeOf(slots[..])
    {
      k := 0;
      while k < cap && slots[k].Some?
        invariant k <= cap && forall l :: 0 <= l < k ==> slots[l].Some?
      {
        k := k + 1;
      }
      FirstFreeIs(slots[..], k);
    }

    /* The first slot with the lowest entry bar, or `cap` when no slot is taken. */
    method OldestSlot() returns (best: nat)
      requires slots.Length == cap
      ensures best == OldestOf(slots[..])
    {
      best := cap;
      for k := 0 to cap
        invariant best == cap || best < k
        invariant best == cap ==> forall l :: 0 <= l < k ==> slots[l] == None
        invariant best < cap ==> OldestAmong(slots[..], k, best)
      {
        if slots[k].Some? && (best == cap || slots[k].value.entryBar < slots[best].value.entryBar) {
          best := k;
        }
      }
      OldestIs(slots[..], best);
    }

    /** `_evict_oldest`: the first intent with the lowest entry bar is resolved as a time-out at its entry. */
    method EvictOldest() returns (victim: nat)
      requires Valid()
      modifies this`resHead, this`resCount, this`history, this`openCount, slots, results
      ensures Valid()
      ensures victim == OldestOf(old(slots[..]))
      ensures victim < cap ==>
                && slots[..] == old(slots[..])[victim := None]
                && history == old(history) + [Evicted(old(slots[..])[victim].value, engine.barCount)]
      ensures victim < cap ==>
                var r := history[|old(history)|];
                && r.outcome == 0 && r.exit == r.entry == old(slots[..])[victim].value.entry && r.pnlBps == 0
                && r.exitBar == engine.barCount && r.barsHeld == r.exitBar - r.entryBar
                && r.id == old(slots[..])[victim].value.id && r.entryBar == old(slots[..])[victim].value.entryBar
      ensures victim >= cap ==> slots[..] == old(slots[..]) && history == old(history)
    {
      victim := OldestSlot();
      if victim < cap {
        Resolve(victim, Evicted(slots[victim].value, engine.barCount));
      }
    }

    /**
     `register_intent`: the id, or -1 when there is no slot at all. The intent takes the first free slot,
     or in a full table that of its oldest intent; nothing else is disturbed.
     */
    method RegisterIntent(entry: int, side: int, tpBps: int, slBps: int, maxBars: int) returns (id: int)
      requires Valid()
      modifies this, slots, results
      ensures Valid()
      ensures id == if cap == 0 then -1 else old(nextId)
      ensures State() == Admitted(old(State()), entry, side, tpBps, slBps, maxBars, engine.barCount)
    {
      var k := MakeRoom();
      if k == cap {
        return -1;
      }
      assert slots[..][k] == None;
      id := nextId;
      Occupy(k, Registered(id, entry, side, tpBps, slBps, maxBars, engine.barCount));
      assert slots[..]
             == old(slots[..])[k := Some(Registered(id, entry, side, tpBps, slBps, maxBars, engine.barCount))];
    }

    /* The first free slot, after an eviction if there was none; `cap` when there is no slot at all. */
    method MakeRoom() returns (k: nat)
      requires Valid()
      modifies this`resHead, this`resCount, this`history, this`openCount, slots, results
      ensures Valid() && k == Placement(old(slots[..]))
      ensures k == cap <==> cap == 0
      ensures k == cap ==> slots[..] == old(slots[..]) && history == old(history)
      ensures k < cap ==>
                && slots[..] == old(slots[..])[k := None]
                && history == old(history) + Displaced(old(slots[..]), k, engine.barCount)
    {
      k := FirstFree();
      if k < cap {
        assert slots[..] == slots[..][k := None];
        return;
      }
      ghost var full := slots[..];
      var victim := EvictOldest();
      if victim < cap {
        FreedSlotIsFirst(full, victim);
      }
      k := FirstFree();
    }

    method Occupy(k: nat, i: Intent)
      requires Valid() && k < cap && slots[k] == None && i.id == nextId
      modifies this`nextId, this`openCount, slots
      ensures Valid() && nextId == old(nextId) + 1 && slots[..] == old(slots[..])[k := Some(i)]
    {
      RegisterKeepsAccounts(slots[..], history, nextId, k, i);
      OpenUpdate(slots[..], k, Some(i));
      nextId := nextId + 1;
      slots[k] := Some(i);
      openCount := openCount + 1;
      assert slots[..] == old(slots[..])[k := Some(i)];
    }

    /**
     `_scan_barriers` for one closed bar: watermarks move on every open intent; exactly the intents
     that touch a barrier or time out leave, each with one result row, in slot order.
     */
    method ScanBarriers(b: BarRow, bar: int)
      requires Valid()
      modifies this`resHead, this`resCount, this`history, this`openCount, slots, results
      ensures Valid()
      ensures slots[..] == Survivors(MarkAll(old(slots[..]), b), b, bar)
      ensures history == old(history) + ScanResults(MarkAll(old(slots[..]), b), b, bar)
    {
      MarkSlots(b);
      ResolveHits(b, bar);
    }

    /* The loop over the slots once the masks are known. */
    method ResolveHits(b: BarRow, bar: int)
      requires Valid()
      modifies this`resHead, this`resCount, this`history, this`openCount, slots, results
      ensures Valid()
      ensures slots[..] == Survivors(old(slots[..]), b, bar)
      ensures history == old(history) + ScanResults(old(slots[..]), b, bar)
    {
      ghost var marked, h0 := slots[..], history;
      assert slots[..] == HalfResolved(marked, b, bar, 0);
      for k := 0 to cap
        invariant Valid() && Resolving(marked, h0, b, bar, k)
      {
        ResolveSlot(marked, h0, k, b, bar);
      }
      assert marked[..cap] == marked;
      assert slots[..] == Survivors(marked, b, bar);
    }

    /* The slots below `k` have been resolved. */
    ghost predicate Resolving(marked: Slots, h0: seq<Result>, b: BarRow, bar: int, k: nat)
      reads this, slots
    {
      && k <= |marked| == cap
      && slots[..] == HalfResolved(marked, b, bar, k) && history == h0 + ScanResults(marked[..k], b, bar)
    }

    method MarkSlots(b: BarRow)
      requires Valid()
      modifies slots
      ensures Valid() && slots[..] == MarkAll(old(slots[..]), b)
    {
      ghost var marked := MarkAll(slots[..], b);
      MarkKeepsAccounts(slots[..], history, nextId, marked);
      SameIdsSameOpen(slots[..], marked);
      forall k | 0 <= k < cap && slots[k].Some? { slots[k] := Some(Marked(slots[k].value, b)); }
      assert slots[..] == marked;
    }

    method ResolveSlot(ghost marked: Slots, ghost h0: seq<Result>, k: nat, b: BarRow, bar: int)
      requires Valid() && k < cap && Resolving(marked, h0, b, bar, k)
      modifies this`resHead, this`resCount, this`history, this`openCount, slots, results
      ensures Valid() && Resolving(marked, h0, b, bar, k + 1)
    {
      ResolutionStep(marked, b, bar, k);
      assert slots[k] == slots[..][k] == marked[k];
      if slots[k].Some? && Resolves(slots[k].value, b, bar) {
        Resolve(k, Scanned(slots[k].value, b, bar));
      }
    }

    /** `on_bars_closed`: the closed bars are scanned in order, as far as the ring still has them. */
    method OnBarsClosed(produced: nat, first: int)
      requires Valid() && engine.Valid() && Apart()
      modifies this`resHead, this`resCount, this`history, this`openCount, slots, results
      ensures Valid()
      ensures State() == Step(old(State()), Notify(Reads(engine, first, produced), first))
    {
      ghost var rows, s0, h0 := Reads(engine, first, produced), slots[..], history;
      if openCount == 0 {
        NothingToScanAtAll(s0, h0, rows, first);
        return;
      }
      assert rows[0..] == rows;
      for offset := 0 to produced
        invariant Valid() && engine.Valid() && Scanning(rows, first, s0, h0, offset)
      {
        ScanNextBar(rows, first, s0, h0, offset);
        if openCount == 0 {
          NoneLeft(rows, first, s0, h0, offset + 1);
          return;
        }
      }
    }

    /* The labeler shares no memory with the bar engine. */
    ghost predicate Apart()
      reads engine
    {
      this as object != engine && results as object != engine.buf && slots as object != engine.buf
    }

    /* The rows are those that reading finds, and what is left of them still does to the table what all of them did. */
    ghost predicate Scanning(rows: seq<Option<BarRow>>, first: int, s0: Slots, h0: seq<Result>, k: nat)
      requires engine.Shape()
      reads this, slots, engine, engine.buf
    {
      && k <= |rows| && (forall j :: 0 <= j < |rows| ==> rows[j] == engine.ReadRow(first + j))
      && ScanRows(slots[..], history, rows[k..], first + k) == ScanRows(s0, h0, rows, first)
    }

    lemma {:induction false} NoneLeft(rows: seq<Option<BarRow>>, first: int, s0: Slots, h0: seq<Result>, k: nat)
      requires engine.Shape() && Scanning(rows, first, s0, h0, k) && Open(slots[..]) == 0
      ensures (slots[..], history) == ScanRows(s0, h0, rows, first)
    {
      NothingToScanAtAll(slots[..], history, rows[k..], first + k);
    }

    method ScanNextBar(ghost rows: seq<Option<BarRow>>, first: int, ghost s0: Slots, ghost h0: seq<Result>, offset: nat)
      requires Valid() && engine.Valid() && Apart() && offset < |rows| && Scanning(rows, first, s0, h0, offset)
      modifies this`resHead, this`resCount, this`history, this`openCount, slots, results
      ensures Valid() && engine.Valid() && Scanning(rows, first, s0, h0, offset + 1)
    {
      ScanNext(slots[..], history, rows, first, offset);
      var row := engine.GetBarRow(first + offset);
      if row.Some? {
        ScanApart(row.value, first + offset);
      }
    }

    /* A scan leaves the bar engine alone. */
    method ScanApart(b: BarRow, bar: int)
      requires Valid() && engine.Valid() && Apart()
      modifies this`resHead, this`resCount, this`history, this`openCount, slots, results
      ensures Valid() && engine.Valid() && forall i :: engine.ReadRow(i) == old(engine.ReadRow(i))
      ensures slots[..] == Survivors(MarkAll(old(slots[..]), b), b, bar)
      ensures history == old(history) + ScanResults(MarkAll(old(slots[..]), b), b, bar)
    {
      ScanBarriers(b, bar);
    }

    /** How many of the last `n` results are still in the ring. */
    function Available(n: int): (a: nat)
      reads this
      ensures n <= 0 ==> a == 0
      ensures n > 0 ==> a <= n && a <= resCount && a <= resCap && (a == n || a == resCount || a == resCap)
    {
      var m := if n < resCount then n else resCount;
      var a := if m < resCap then m else resCap;
      if a < 0 then 0 else a
    }

    /* Reading the ring backwards from the head visits the history backwards. */
    lemma {:induction false} NewestAt(i: nat)
      requires Valid() && i < resCount && i < resCap
      ensures results[Slot(resHead - 1 - i, resCap)] == history[resCount - 1 - i]
    {
      SlotBack(resCount, 1 + i, resCap);
    }

    /** `get_results_view`: exactly the last rows of the history, across the wrap of the ring. */
    method GetResultsView(n: int) returns (rows: seq<Result>)
      requires Valid()
      ensures rows == history[resCount - Available(n)..]
    {
      var available := Available(n);
      if available == 0 {
        return [];
      }
      var end := resHead;
      if end >= available {
        rows := results[end - available..end];
      } else {
        rows := results[resCap - (available - end)..] + results[..end];
      }
      forall k | 0 <= k < available
        ensures rows[k] == history[resCount - available + k]
      {
        NewestAt(available - 1 - k);
        SlotBelow(resHead, available - k, resCap);
      }
    }

    /** `get_label`: the recorded outcome of an id while its row is in the ring. */
    method GetLabel(id: int) returns (r: Option<int>)
      requires Valid()
      ensures r.Some? ==> exists j :: resCount - Available(resCount) <= j < resCount && history[j].id == id
                            && r.value == history[j].outcome
      ensures r.None? <==> forall j :: resCount - Available(resCount) <= j < resCount ==> history[j].id != id
    {
      var available := Available(resCount);
      for i := 0 to available
        invariant forall j :: resCount - i <= j < resCount ==> history[j].id != id
      {
        NewestAt(i);
        var row := results[Slot(resHead - 1 - i, resCap)];
        if row.id == id {
          return Some(row.outcome);
        }
      }
      return None;
    }

    /** `get_win_rate`: wins, losses and time-outs over the rows that `get_results_view` returns. */
    method GetWinRate(n: int) returns (wins: nat, losses: nat, timeouts: nat)
      requires Valid()
      ensures var rows := history[resCount - Available(n)..];
              && wins == CountOutcome(rows, 1) && losses == CountOutcome(rows, -1)
              && wins + losses + timeouts == |rows|
    {
      var available := Available(n);
      wins, losses, timeouts := 0, 0, 0;
      for i := 0 to available
        invariant wins == CountOutcome(history[resCount - i..], 1)
        invariant losses == CountOutcome(history[resCount - i..], -1)
        invariant wins + losses + timeouts == i
      {
        NewestAt(i);
        assert history[resCount - (i + 1)..][1..] == history[resCount - i..];
        var outcome := results[Slot(resHead - 1 - i, resCap)].outcome;
        if outcome == 1 {
          wins := wins + 1;
        } else if outcome == -1 {
          losses := losses + 1;
        } else {
          timeouts := timeouts + 1;
        }
      }
    }
  }

  function CountOutcome(rows: seq<Result>, outcome: int): nat {
    if rows == [] then 0 else (if rows[0].outcome == outcome then 1 else 0) + CountOutcome(rows[1..], outcome)
  }

  /* A new intent at slot k pushes out this one, recorded at its entry as a time-out. */
  ghost predicate Evicts(h: seq<Result>, g: seq<Result>, victim: Intent, bar: int) {
    && |g| == |h| + 1 && h <= g
    && var r := g[|h|];
       && r.id == victim.id && r.outcome == 0 && r.exit == r.entry == victim.entry && r.pnlBps == 0
       && r.entryBar == victim.entryBar && r.exitBar == bar && r.barsHeld == bar - victim.entryBar
  }

  /**
   A new intent takes the first free slot and disturbs nothing; in a full table it takes that of the first intent
   with the lowest entry bar, which is recorded; with no slots at all it is dropped.
   */
  lemma {:induction false} AdmissionTakesOneSlot(d: Desk, entry: int, side: int, tpBps: int, slBps: int, maxBars: int,
                                                 bar: int)
      returns (k: nat)
    ensures var r := Admitted(d, entry, side, tpBps, slBps, maxBars, bar);
            && (d.slots == [] ==> r == d)
            && (d.slots != [] ==>
                  && k < |d.slots| && r.next == d.next + 1
                  && r.slots == d.slots[k := Some(Registered(d.next, entry, side, tpBps, slBps, maxBars, bar))]
                  && (d.slots[k] == None ==> r.history == d.history && forall l :: 0 <= l < k ==> d.slots[l].Some?)
                  && (d.slots[k].Some? ==>
                        && (forall l :: 0 <= l < |d.slots| ==> d.slots[l].Some?) && OldestAmong(d.slots, |d.slots|, k)
                        && Evicts(d.history, r.history, d.slots[k].value, bar)))
  {
    k := Placement(d.slots);
    if d.slots != [] && d.slots[k] == None {
      assert d.history + [] == d.history;
    }
  }

  /** The count over two stretches of rows is the sum of both, and a row counts one for its own outcome only. */
  lemma {:induction false} CountOutcomeAdds(a: seq<Result>, b: seq<Result>, r: Result, outcome: int)
    ensures CountOutcome(a + b, outcome) == CountOutcome(a, outcome) + CountOutcome(b, outcome)
    ensures CountOutcome([], outcome) == 0 && CountOutcome([r], r.outcome) == 1
    ensures outcome != r.outcome ==> CountOutcome([r], outcome) == 0
    decreases |a|
  {
    assert [r][1..] == [];
    if a == [] {
      assert a + b == b;
    } else {
      assert (a + b)[0] == a[0] && (a + b)[1..] == a[1..] + b;
      CountOutcomeAdds(a[1..], b, r, outcome);
    }
  }

  lemma {:induction false} SlotBelow(r: nat, d: nat, m: nat)
    requires r < m && 0 < d <= m
    ensures Slot(r - d, m) == if r >= d then r - d else r - d + m
  {
    if r >= d {
      SmallSlot(r - d, m);
    } else {
      DivisionIs(r - d, m, -1, r - d + m);
    }
  }

  /**
   Every bar a notification names is read exactly as it was closed, exactly when the notification covers
   fewer bars than the ring holds.
   */
  lemma {:induction false} NotificationReadsTheBars(engine: DollarBarEngine, first: nat, produced: nat)
    requires engine.Valid() && first + produced == engine.barCount
    ensures (forall k :: 0 <= k < produced ==> Reads(engine, first, produced)[k] == Some(engine.bars[first + k]))
            <==> produced < engine.capacity
  {
    if produced >= engine.capacity {
      var k := produced - engine.capacity;
      SlotMinusCapacity(engine.barCount, engine.capacity);
      assert OhlcOrdered(engine.bars[first + k]);
      assert Reads(engine, first, produced)[k] != Some(engine.bars[first + k]);
    }
  }

  function ScanOne(s: Slots, h: seq<Result>, row: Option<BarRow>, bar: int): (Slots, seq<Result>) {
    if row.None? then (s, h)
    else
      var marked := MarkAll(s, row.value);
      (Survivors(marked, row.value, bar), h + ScanResults(marked, row.value, bar))
  }

  /* The table after the first `k` slots have been resolved. */
  function HalfResolved(marked: Slots, b: BarRow, bar: int, k: nat): (t: Slots)
    requires k <= |marked|
    ensures |t| == |marked|
  {
    Survivors(marked, b, bar)[..k] + marked[k..]
  }

  lemma {:induction false} ResolutionStep(marked: Slots, b: BarRow, bar: int, k: nat)
    requires k < |marked|
    ensures HalfResolved(marked, b, bar, k)[k] == marked[k]
    ensures var hit := marked[k].Some? && Resolves(marked[k].value, b, bar);
            && HalfResolved(marked, b, bar, k + 1)
                 == (if hit then HalfResolved(marked, b, bar, k)[k := None] else HalfResolved(marked, b, bar, k))
            && ScanResults(marked[..k + 1], b, bar)
                 == ScanResults(marked[..k], b, bar) + (if hit then [Scanned(marked[k].value, b, bar)] else [])
  {
    assert marked[..k + 1][..k] == marked[..k] && marked[..k + 1][k] == marked[k];
  }

  /* What reading bars first, first + 1, ... finds. */
  ghost function Reads(engine: DollarBarEngine, first: int, n: nat): (rows: seq<Option<BarRow>>)
    requires engine.Shape()
    reads engine, engine.buf
    ensures |rows| == n && forall k :: 0 <= k < n ==> rows[k] == engine.ReadRow(first + k)
  {
    seq(n, k requires 0 <= k < n && engine.Shape() reads engine, engine.buf => engine.ReadRow(first + k))
  }

  function Displaced(s: Slots, k: int, bar: int): seq<Result>
    requires 0 <= k < |s|
  {
    if s[k].Some? then [Evicted(s[k].value, bar)] else []
  }
}
