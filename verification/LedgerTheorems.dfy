/**
 Exposure safety of the ledger over whole runs: with the gate asked before every dispatch and fills no
 worse than promised, total exposure never reaches the limit plus one order.
 */
module LedgerTheorems {
  import opened Options
  import opened Reals
  import opened Sums
  import opened SchrodingerLedgers

  /* What the exchange promises about a fill of an order it was sent. */
  ghost predicate FillWithin(o: Order, qty: real, px: real) {
    0.0 <= qty <= o.qty && 0.0 <= px && (o.side == Buy ==> px <= o.worst)
  }

  /* The caller's discipline at each step. */
  ghost predicate Legal(l: Ledger, e: Event, limit: real, cost: real) {
    match e
    case Dispatch(o) =>
      && o.id !in l.purgatory && StrikeAllowed(l, o.symbol, limit)
      && o.qty >= 0.0 && o.worst >= 0.0 && Value(o.qty, o.worst) <= cost
    case Fill(id, qty, px) => id in l.purgatory ==> FillWithin(l.purgatory[id], qty, px)
    case Reconcile(id, fate, qty, px) =>
      id in l.purgatory && (fate == Filled || fate == PartiallyFilled) && qty > 0.0 ==>
        FillWithin(l.purgatory[id], qty, px)
    case _ => true
  }

  ghost predicate SaneBooks(l: Ledger) {
    && (forall s :: s in l.confirmed ==> l.confirmed[s].qty >= 0.0 && l.confirmed[s].avgPx >= 0.0)
    && (forall id :: id in l.purgatory ==>
          l.purgatory[id].id == id && l.purgatory[id].qty >= 0.0 && l.purgatory[id].worst >= 0.0)
  }

  ghost predicate OnePerSymbol(l: Ledger) {
    forall a, b :: a in l.purgatory && b in l.purgatory && l.purgatory[a].symbol == l.purgatory[b].symbol ==> a == b
  }

  ghost predicate Inv(l: Ledger, limit: real, cost: real) {
    && SaneBooks(l) && OnePerSymbol(l) && |l.log| <= 1000
    && (Exposure(l) <= 0.0 || Exposure(l) < limit + cost)
  }

  lemma {:induction false} ValueSign(q: real, px: real)
    requires q >= 0.0 && px >= 0.0
    ensures Value(q, px) >= 0.0
  {
  }

  lemma {:induction false} ValueMonotone(q: real, px: real, q': real, px': real)
    requires 0.0 <= q <= q' && 0.0 <= px <= px'
    ensures Value(q, px) <= Value(q', px')
  {
    assert q * px <= q * px';
    assert q * px' <= q' * px';
  }

  /** Merging a fill adds at most its own value to a position's exposure; selling never adds. */
  lemma {:induction false} MergeBounded(p: Position, side: Side, qty: real, px: real)
    requires p.qty >= 0.0 && p.avgPx >= 0.0 && qty >= 0.0 && px >= 0.0
    ensures var m := Merged(p, side, qty, px);
            && m.qty >= 0.0 && m.avgPx >= 0.0
            && 0.0 <= Value(m.qty, m.avgPx) <= Value(p.qty, p.avgPx) + (if side == Buy then Value(qty, px) else 0.0)
  {
    ValueSign(p.qty, p.avgPx);
    ValueSign(qty, px);
    var m := Merged(p, side, qty, px);
    match side
    case Buy =>
      var n := p.qty + qty;
      if n > 0.0 {
        Average(Value(p.qty, p.avgPx) + Value(qty, px), n);
      }
    case Sell =>
      ValueSign(m.qty, m.avgPx);
      ValueMonotone(m.qty, m.avgPx, p.qty, p.avgPx);
  }

  lemma {:induction false} Average(total: real, n: real)
    requires n > 0.0 && total >= 0.0
    ensures total / n >= 0.0 && Value(n, total / n) == total
  {
  }

  lemma {:induction false} ConfirmedAfter(m: map<string, Position>, s: string, p: Position)
    ensures ConfirmedTotal(m[s := p]) ==
            ConfirmedTotal(m) - (if s in m then Abs(Value(m[s].qty, m[s].avgPx)) else 0.0) + Abs(Value(p.qty, p.avgPx))
  {
    var n := m[s := p];
    var f, g := PositionExposure(m), PositionExposure(n);
    SumOverRemove(n.Keys, g, s);
    SumOverSame(n.Keys - {s}, f, g);
    if s in m {
      SumOverRemove(m.Keys, f, s);
      assert n.Keys == m.Keys;
    } else {
      assert n.Keys - {s} == m.Keys;
    }
  }

  lemma {:induction false} PurgatoryAfterRemove(m: map<string, Order>, id: string)
    requires id in m
    ensures PurgatoryTotal(m - {id}) == PurgatoryTotal(m) - Abs(Value(m[id].qty, m[id].worst))
  {
    SumOverRemove(m.Keys, OrderExposure(m), id);
    assert (m - {id}).Keys == m.Keys - {id};
    SumOverSame(m.Keys - {id}, OrderExposure(m), OrderExposure(m - {id}));
  }

  lemma {:induction false} PurgatoryAfterAdd(m: map<string, Order>, o: Order)
    requires o.id !in m
    ensures PurgatoryTotal(m[o.id := o]) == PurgatoryTotal(m) + Abs(Value(o.qty, o.worst))
  {
    var n := m[o.id := o];
    PurgatoryAfterRemove(n, o.id);
    assert n - {o.id} == m;
  }

  /** Resolving an order, with or without a fill, never raises the total. */
  lemma {:induction false} ResolveLowers(l: Ledger, id: string, qty: real, px: real)
    requires SaneBooks(l) && id in l.purgatory && FillWithin(l.purgatory[id], qty, px)
    ensures var r := MergeConfirmed(Resolve(l, id), l.purgatory[id], qty, px);
            SaneBooks(r) && Exposure(r) <= Exposure(l)
  {
    var o := l.purgatory[id];
    var held := Held(l, o.symbol);
    MergeBounded(held, o.side, qty, px);
    ConfirmedAfter(l.confirmed, o.symbol, Merged(held, o.side, qty, px));
    PurgatoryAfterRemove(l.purgatory, id);
    ValueSign(o.qty, o.worst);
    if o.side == Buy {
      ValueMonotone(qty, px, o.qty, o.worst);
    }
    ValueSign(held.qty, held.avgPx);
  }

  lemma {:induction false} DropLowers(l: Ledger, id: string)
    requires SaneBooks(l)
    ensures SaneBooks(Resolve(l, id)) && Exposure(Resolve(l, id)) <= Exposure(l)
  {
    if id in l.purgatory {
      PurgatoryAfterRemove(l.purgatory, id);
      ValueSign(l.purgatory[id].qty, l.purgatory[id].worst);
    } else {
      assert l.purgatory - {id} == l.purgatory;
    }
  }

  lemma {:induction false} RetryKeeps(l: Ledger, id: string)
    requires SaneBooks(l) && id in l.purgatory
    ensures var o := l.purgatory[id];
            var r := l.(purgatory := l.purgatory[id := o.(attempts := o.attempts + 1)]);
            SaneBooks(r) && Exposure(r) == Exposure(l)
  {
    var o := l.purgatory[id];
    var m := l.purgatory[id := o.(attempts := o.attempts + 1)];
    assert m.Keys == l.purgatory.Keys;
    SumOverSame(m.Keys, OrderExposure(l.purgatory), OrderExposure(m));
  }

  /** Every fill, rejection and reconciliation leaves the total no larger. */
  lemma {:induction false} OnlyDispatchRaises(l: Ledger, e: Event, limit: real, cost: real)
    requires SaneBooks(l) && Legal(l, e, limit, cost) && !e.Dispatch?
    ensures SaneBooks(Apply(l, e)) && Exposure(Apply(l, e)) <= Exposure(l)
  {
    match e
    case Fill(id, qty, px) =>
      if id in l.purgatory {
        ResolveLowers(l, id, qty, px);
      }
    case Rejection(id, _) => DropLowers(l, id);
    case Lost(id) => DropLowers(l, id);
    case Reconcile(id, fate, qty, px) =>
      if id in l.purgatory {
        ReconcileLowers(l, id, fate, qty, px);
      }
  }

  lemma {:induction false} ReconcileLowers(l: Ledger, id: string, fate: Fate, qty: real, px: real)
    requires SaneBooks(l) && id in l.purgatory
    requires (fate == Filled || fate == PartiallyFilled) && qty > 0.0 ==> FillWithin(l.purgatory[id], qty, px)
    ensures var r := Reconciled(l, id, fate, qty, px);
            SaneBooks(r) && Exposure(r) <= Exposure(l)
  {
    match fate
    case Indeterminate => RetryKeeps(l, id);
    case Filled => if qty > 0.0 { ResolveLowers(l, id, qty, px); } else { DropLowers(l, id); }
    case PartiallyFilled => if qty > 0.0 { ResolveLowers(l, id, qty, px); } else { DropLowers(l, id); }
    case _ => DropLowers(l, id);
  }

  /** Dispatching an order under a fresh id raises the total by exactly its worst-case value. */
  lemma {:induction false} DispatchAddsItsValue(l: Ledger, o: Order)
    requires o.id !in l.purgatory
    ensures Exposure(Apply(l, Dispatch(o))) == Exposure(l) + Abs(Value(o.qty, o.worst))
    ensures Apply(l, Dispatch(o)).purgatory - {o.id} == l.purgatory
  {
    PurgatoryAfterAdd(l.purgatory, o);
    assert Apply(l, Dispatch(o)).purgatory - {o.id} == l.purgatory;
  }

  /** Averaging a buy into a position conserves cost; a sale keeps the average and never sells more than is held. */
  lemma {:induction false} MergeConservesCost(p: Position, side: Side, qty: real, px: real)
    requires p.qty >= 0.0 && p.avgPx >= 0.0 && qty >= 0.0 && px >= 0.0
    ensures var m := Merged(p, side, qty, px);
            && (side == Buy ==> m.qty == p.qty + qty
                                && Value(m.qty, m.avgPx) == Value(p.qty, p.avgPx) + Value(qty, px))
            && (side == Sell ==> m.avgPx == p.avgPx && m.qty == Max(0.0, p.qty - qty))
  {
    ValueSign(p.qty, p.avgPx);
    ValueSign(qty, px);
    if side == Buy {
      if p.qty + qty > 0.0 {
        Average(Value(p.qty, p.avgPx) + Value(qty, px), p.qty + qty);
      } else {
        NothingHeld(p.avgPx);
        NothingHeld(px);
      }
    }
  }

  /* An order reconciled as filled leaves the same books as the fill that was missed. */
  lemma {:induction false} ReconciledFillIsFill(l: Ledger, id: string, fate: Fate, qty: real, px: real)
    requires (fate == Filled || fate == PartiallyFilled) && qty > 0.0
    ensures var r, f := Apply(l, Reconcile(id, fate, qty, px)), Apply(l, Fill(id, qty, px));
            r.confirmed == f.confirmed && r.purgatory == f.purgatory && r.generation == f.generation
  {
  }

  /* What a fill does to the books: exactly this order goes, and no other symbol's position moves. */
  ghost predicate FilledOnly(l: Ledger, r: Ledger, id: string, qty: real, px: real)
    requires id in l.purgatory
  {
    var o := l.purgatory[id];
    var held := Held(l, o.symbol);
    && Exposure(r) == Exposure(l) - Value(o.qty, o.worst)
         + (if o.side == Buy then Value(qty, px)
            else Value(Max(0.0, held.qty - qty), held.avgPx) - Value(held.qty, held.avgPx))
    && r.purgatory == l.purgatory - {id}
    && r.confirmed - {o.symbol} == l.confirmed - {o.symbol} && o.symbol in r.confirmed
    && Held(r, o.symbol).qty == (if o.side == Buy then held.qty + qty else Max(0.0, held.qty - qty))
    && (o.side == Sell ==> Held(r, o.symbol).avgPx == held.avgPx)
  }

  lemma {:induction false} FillMovesExposure(l: Ledger, id: string, qty: real, px: real)
    requires SaneBooks(l) && id in l.purgatory && FillWithin(l.purgatory[id], qty, px)
    ensures FilledOnly(l, Apply(l, Fill(id, qty, px)), id, qty, px)
  {
    var r, o := Apply(l, Fill(id, qty, px)), l.purgatory[id];
    var held := Held(l, o.symbol);
    HeldExposure(l, o.symbol);
    MergeConservesCost(held, o.side, qty, px);
    MergeBounded(held, o.side, qty, px);
    ConfirmedAfter(l.confirmed, o.symbol, Merged(held, o.side, qty, px));
    PurgatoryAfterRemove(l.purgatory, id);
    ValueSign(o.qty, o.worst);
    assert r.confirmed - {o.symbol} == l.confirmed - {o.symbol};
  }

  lemma {:induction false} SameBooksSameFill(l: Ledger, f: Ledger, r: Ledger, id: string, qty: real, px: real)
    requires id in l.purgatory && FilledOnly(l, f, id, qty, px)
    requires r.confirmed == f.confirmed && r.purgatory == f.purgatory
    ensures FilledOnly(l, r, id, qty, px)
  {
  }

  /**
   A fill within the order, reported or reconciled, replaces its worst-case value by what was really paid, or
   takes what was sold out of the position at its average; the position grows by exactly the quantity bought,
   or shrinks by the quantity sold down to zero; exactly this order leaves purgatory, and no other symbol's
   position moves.
   */
  lemma {:induction false} FillMovesExposureExactly(l: Ledger, e: Event, id: string, fate: Fate, qty: real,
                                                    px: real)
    requires SaneBooks(l) && id in l.purgatory && FillWithin(l.purgatory[id], qty, px)
    requires e == Fill(id, qty, px)
             || (e == Reconcile(id, fate, qty, px) && (fate == Filled || fate == PartiallyFilled) && qty > 0.0)
    ensures FilledOnly(l, Apply(l, e), id, qty, px)
  {
    FillMovesExposure(l, id, qty, px);
    if e.Reconcile? {
      ReconciledFillIsFill(l, id, fate, qty, px);
      SameBooksSameFill(l, Apply(l, Fill(id, qty, px)), Apply(l, e), id, qty, px);
    }
  }

  /* ---- runs of fills ---- */

  /* One reported fill. */
  datatype Report = Report(id: string, qty: real, px: real)

  function FillAll(l: Ledger, fs: seq<Report>): Ledger
    decreases |fs|
  {
    if fs == [] then l else FillAll(Apply(l, Fill(fs[0].id, fs[0].qty, fs[0].px)), fs[1..])
  }

  function Bought(fs: seq<Report>): real {
    if fs == [] then 0.0 else fs[0].qty + Bought(fs[1..])
  }

  function Paid(fs: seq<Report>): real {
    if fs == [] then 0.0 else Value(fs[0].qty, fs[0].px) + Paid(fs[1..])
  }

  /* Different orders in purgatory, all to buy this symbol, each filled within what it asked for. */
  ghost predicate BuyFills(l: Ledger, symbol: string, fs: seq<Report>) {
    && (forall i, j :: 0 <= i < j < |fs| ==> fs[i].id != fs[j].id)
    && forall i :: 0 <= i < |fs| ==> BuyFill(l, symbol, fs[i])
  }

  ghost predicate BuyFill(l: Ledger, symbol: string, f: Report) {
    && f.id in l.purgatory && l.purgatory[f.id].symbol == symbol && l.purgatory[f.id].side == Buy
    && FillWithin(l.purgatory[f.id], f.qty, f.px)
  }

  /* The position grew by this quantity at this cost. */
  ghost predicate Grew(p: Position, q: Position, qty: real, cost: real) {
    q.qty == p.qty + qty && Value(q.qty, q.avgPx) == Value(p.qty, p.avgPx) + cost
  }

  lemma {:induction false} GrewTwice(p: Position, q: Position, r: Position, qty1: real, cost1: real, qty2: real,
                                     cost2: real)
    requires Grew(p, q, qty1, cost1) && Grew(q, r, qty2, cost2)
    ensures Grew(p, r, qty1 + qty2, cost1 + cost2)
  {
  }

  lemma {:induction false} FillMerges(l: Ledger, id: string, qty: real, px: real)
    requires id in l.purgatory
    ensures var r, o := Apply(l, Fill(id, qty, px)), l.purgatory[id];
            r.purgatory == l.purgatory - {id} && Held(r, o.symbol) == Merged(Held(l, o.symbol), o.side, qty, px)
  {
  }

  lemma {:induction false} OneBuy(l: Ledger, symbol: string, f: Report)
    requires SaneBooks(l) && BuyFill(l, symbol, f)
    ensures var r := Apply(l, Fill(f.id, f.qty, f.px));
            && SaneBooks(r) && r.purgatory == l.purgatory - {f.id}
            && Grew(Held(l, symbol), Held(r, symbol), f.qty, Value(f.qty, f.px))
  {
    FillMerges(l, f.id, f.qty, f.px);
    FillStaysSane(l, f.id, f.qty, f.px);
    MergeConservesCost(Held(l, symbol), Buy, f.qty, f.px);
  }

  lemma {:induction false} FillStaysSane(l: Ledger, id: string, qty: real, px: real)
    requires SaneBooks(l) && id in l.purgatory && FillWithin(l.purgatory[id], qty, px)
    ensures SaneBooks(Apply(l, Fill(id, qty, px)))
  {
    var o := l.purgatory[id];
    MergeBounded(Held(l, o.symbol), o.side, qty, px);
  }

  lemma {:induction false} BuyFillsRemain(l: Ledger, r: Ledger, symbol: string, fs: seq<Report>)
    requires fs != [] && BuyFills(l, symbol, fs) && r.purgatory == l.purgatory - {fs[0].id}
    ensures BuyFills(r, symbol, fs[1..])
  {
    var rest := fs[1..];
    forall i | 0 <= i < |rest|
      ensures BuyFill(r, symbol, rest[i])
    {
      assert rest[i] == fs[i + 1] && BuyFill(l, symbol, fs[i + 1]);
    }
  }

  /** After any run of buys the position is the sum of the fills, on top of what was held, and cost what they cost. */
  lemma {:induction false} BuysAddUp(l: Ledger, symbol: string, fs: seq<Report>)
    requires SaneBooks(l) && BuyFills(l, symbol, fs)
    ensures var r := FillAll(l, fs);
            Grew(Held(l, symbol), Held(r, symbol), Bought(fs), Paid(fs))
    decreases |fs|
  {
    if fs != [] {
      assert BuyFill(l, symbol, fs[0]);
      OneBuy(l, symbol, fs[0]);
      var next := Apply(l, Fill(fs[0].id, fs[0].qty, fs[0].px));
      BuyFillsRemain(l, next, symbol, fs);
      BuysAddUp(next, symbol, fs[1..]);
      GrewTwice(Held(l, symbol), Held(next, symbol), Held(FillAll(next, fs[1..]), symbol), fs[0].qty,
                Value(fs[0].qty, fs[0].px), Bought(fs[1..]), Paid(fs[1..]));
    }
  }

  /** So from an empty position the average is what was paid over what was bought. */
  lemma {:induction false} AverageIsCostOverQuantity(l: Ledger, symbol: string, fs: seq<Report>)
    requires SaneBooks(l) && symbol !in l.confirmed && BuyFills(l, symbol, fs) && Bought(fs) > 0.0
    ensures Held(FillAll(l, fs), symbol) == Position(Bought(fs), Paid(fs) / Bought(fs))
  {
    BuysAddUp(l, symbol, fs);
    QuotientOfProduct(Bought(fs), Held(FillAll(l, fs), symbol).avgPx, Paid(fs));
  }

  lemma {:induction false} QuotientOfProduct(n: real, avg: real, total: real)
    requires n > 0.0 && n * avg == total
    ensures avg == total / n
  {
  }

  /* The order an exchange message is about. */
  function About(e: Event): Option<string> {
    match e
    case Dispatch(_) => None
    case Fill(id, _, _) => Some(id)
    case Rejection(id, _) => Some(id)
    case Reconcile(id, _, _, _) => Some(id)
    case Lost(id) => Some(id)
  }

  /* What the audit trail says of an exchange message. */
  ghost predicate Recorded(e: Event, v: Verdict) {
    match e
    case Dispatch(_) => false
    case Fill(id, qty, px) => v == Verdict(id, Filled, qty, px)
    case Rejection(id, fate) => v == Verdict(id, fate, 0.0, 0.0)
    case Reconcile(id, fate, qty, px) => v == Verdict(id, fate, qty, px)
    case Lost(id) => v == Verdict(id, NeverReceived, 0.0, 0.0)
  }

  /**
   A fill or a reconciliation of an unknown order does nothing at all; anything else moves the generation by one,
   and every exchange message ends the audit trail with its verdict.
   */
  lemma {:induction false} EveryEventIsRecorded(l: Ledger, e: Event)
    ensures var r, unknown := Apply(l, e), (e.Fill? || e.Reconcile?) && About(e).value !in l.purgatory;
            && (unknown ==> r == l)
            && (!unknown ==> r.generation == l.generation + 1)
            && (e.Dispatch? ==> r.log == l.log)
            && (!unknown && !e.Dispatch? ==> r.log != [] && Recorded(e, r.log[|r.log| - 1]))
  {
    var v := if e.Fill? then Verdict(e.id, Filled, e.qty, e.px)
             else if e.Rejection? then Verdict(e.id, e.fate, 0.0, 0.0)
             else if e.Reconcile? then Verdict(e.id, e.fate, e.qty, e.px)
             else Verdict("", NeverReceived, 0.0, 0.0);
    AuditKeepsTheNewest(l.log, if e.Lost? then v.(id := e.id) else v);
  }

  /** An order is settled once: after any conclusive message, no later one about it touches the books. */
  lemma {:induction false} OrdersSettleOnce(l: Ledger, first: Event, second: Event)
    requires About(first).Some? && About(second) == About(first)
    requires !(first.Reconcile? && first.fate == Indeterminate)
    ensures var r := Apply(l, first);
            && About(first).value !in r.purgatory
            && Apply(r, second).confirmed == r.confirmed && Apply(r, second).purgatory == r.purgatory
  {
    var r, id := Apply(l, first), About(first).value;
    assert id !in r.purgatory;
    assert r.purgatory - {id} == r.purgatory;
  }

  lemma {:induction false} OneStaysOne(l: Ledger, e: Event, limit: real, cost: real)
    requires SaneBooks(l) && OnePerSymbol(l) && Legal(l, e, limit, cost)
    ensures OnePerSymbol(Apply(l, e))
  {
  }

  lemma {:induction false} StepKeepsInv(l: Ledger, e: Event, limit: real, cost: real)
    requires Inv(l, limit, cost) && Legal(l, e, limit, cost)
    ensures Inv(Apply(l, e), limit, cost)
  {
    OneStaysOne(l, e, limit, cost);
    if e.Dispatch? {
      PurgatoryAfterAdd(l.purgatory, e.order);
      ValueSign(e.order.qty, e.order.worst);
    } else {
      OnlyDispatchRaises(l, e, limit, cost);
    }
  }

  function RunAll(l: Ledger, es: seq<Event>): Ledger
    decreases |es|
  {
    if es == [] then l else RunAll(Apply(l, es[0]), es[1..])
  }

  ghost predicate LegalRun(l: Ledger, es: seq<Event>, limit: real, cost: real)
    decreases |es|
  {
    es == [] || (Legal(l, es[0], limit, cost) && LegalRun(Apply(l, es[0]), es[1..], limit, cost))
  }

  lemma {:induction false} RunKeepsInv(l: Ledger, es: seq<Event>, limit: real, cost: real)
    requires Inv(l, limit, cost) && LegalRun(l, es, limit, cost)
    ensures Inv(RunAll(l, es), limit, cost)
    decreases |es|
  {
    if es != [] {
      StepKeepsInv(l, es[0], limit, cost);
      RunKeepsInv(Apply(l, es[0]), es[1..], limit, cost);
    }
  }

  /**
   In every disciplined run from the empty ledger, total exposure stays below the limit plus the cost
   of one order, and no symbol ever has two orders in purgatory.
   */
  lemma {:induction false} ExposureIsBounded(es: seq<Event>, limit: real, cost: real)
    requires limit > 0.0 && cost >= 0.0 && LegalRun(EMPTY_LEDGER, es, limit, cost)
    ensures Exposure(RunAll(EMPTY_LEDGER, es)) < limit + cost
    ensures OnePerSymbol(RunAll(EMPTY_LEDGER, es))
  {
    assert Exposure(EMPTY_LEDGER) == 0.0;
    RunKeepsInv(EMPTY_LEDGER, es, limit, cost);
  }

  /* ---- the total is the sum of the shadow positions ---- */

  ghost function ShadowExposure(l: Ledger): string -> real {
    (s: string) => ShadowOf(l, s).exposure
  }

  ghost function CostOf(m: map<string, Order>): string -> real {
    (s: string) => SumOver(m.Keys, CostFor(m, s))
  }

  ghost function SymbolsOf(l: Ledger): set<string> {
    l.confirmed.Keys + set id | id in l.purgatory :: l.purgatory[id].symbol
  }

  lemma {:induction false} NonNegativeSum(s: set<string>, f: string -> real)
    requires forall x :: x in s ==> f(x) >= 0.0
    ensures SumOver(s, f) >= 0.0
    ensures SumOver(s, f) == 0.0 ==> forall x :: x in s ==> f(x) == 0.0
    decreases s
  {
    if s != {} {
      var x :| x in s;
      SumOverRemove(s, f, x);
      NonNegativeSum(s - {x}, f);
    }
  }

  /* One symbol: quantity times pessimistic average is confirmed value plus purgatory cost. */
  lemma {:induction false} ShadowIsValuePlusCost(l: Ledger, s: string)
    requires SaneBooks(l)
    ensures ShadowOf(l, s).exposure ==
            PositionExposure(l.confirmed)(s) + CostOf(l.purgatory)(s)
  {
    HeldExposure(l, s);
    OrdersForSymbol(l.purgatory, s);
    PessimisticExposure(s, Held(l, s), SumOver(l.purgatory.Keys, QtyFor(l.purgatory, s)),
                        SumOver(l.purgatory.Keys, CostFor(l.purgatory, s)), |OrdersOf(l.purgatory, s)|);
  }

  /* Spreading the cost over the quantity and multiplying back. */
  lemma {:induction false} PessimisticExposure(symbol: string, held: Position, more: real, cost: real, count: nat)
    requires held.qty >= 0.0 && more >= 0.0 && cost >= 0.0 && Value(held.qty, held.avgPx) >= 0.0
    requires more == 0.0 ==> cost == 0.0
    ensures Pessimistic(symbol, held, more, cost, count).exposure == Value(held.qty, held.avgPx) + cost
  {
    if held.qty + more > 0.0 {
      Average(Value(held.qty, held.avgPx) + cost, held.qty + more);
    } else {
      NothingHeld(held.avgPx);
    }
  }

  lemma {:induction false} HeldExposure(l: Ledger, s: string)
    requires SaneBooks(l)
    ensures var held := Held(l, s);
            held.qty >= 0.0 && 0.0 <= Value(held.qty, held.avgPx) == PositionExposure(l.confirmed)(s)
  {
    var held := Held(l, s);
    if s in l.confirmed {
      ValueSign(held.qty, held.avgPx);
    } else {
      NothingHeld(0.0);
    }
  }

  lemma {:induction false} NothingHeld(px: real)
    ensures Value(0.0, px) == 0.0
  {
  }

  lemma {:induction false} OrdersForSymbol(m: map<string, Order>, s: string)
    requires forall id :: id in m ==> m[id].qty >= 0.0 && m[id].worst >= 0.0
    ensures SumOver(m.Keys, QtyFor(m, s)) >= 0.0 && SumOver(m.Keys, CostFor(m, s)) >= 0.0
    ensures SumOver(m.Keys, QtyFor(m, s)) == 0.0 ==> SumOver(m.Keys, CostFor(m, s)) == 0.0
  {
    var f, g := QtyFor(m, s), CostFor(m, s);
    forall id | id in m.Keys
      ensures g(id) >= 0.0 && (f(id) == 0.0 ==> g(id) == 0.0)
    {
      ValueSign(m[id].qty, m[id].worst);
      NothingHeld(m[id].worst);
    }
    NonNegativeSum(m.Keys, f);
    NonNegativeSum(m.Keys, g);
    if SumOver(m.Keys, f) == 0.0 {
      SumOverSame(m.Keys, f, g);
    }
  }

  /** Grouping the orders by symbol does not change their total cost. */
  lemma {:induction false} CostsByGroup(m: map<string, Order>, symbols: set<string>)
    requires forall id :: id in m ==> m[id].qty >= 0.0 && m[id].worst >= 0.0 && m[id].symbol in symbols
    ensures SumOver(symbols, CostOf(m)) == PurgatoryTotal(m)
    decreases m.Keys
  {
    if m.Keys == {} {
      assert forall s :: s in symbols ==> CostOf(m)(s) == 0.0;
      SumOverSubset({}, symbols, CostOf(m));
    } else {
      var id :| id in m.Keys;
      CostsByGroup(m - {id}, symbols);
      PurgatoryAfterRemove(m, id);
      CostsWithout(m, id, symbols);
    }
  }

  lemma {:induction false} CostsWithout(m: map<string, Order>, id: string, symbols: set<string>)
    requires id in m && m[id].qty >= 0.0 && m[id].worst >= 0.0 && m[id].symbol in symbols
    ensures SumOver(symbols, CostOf(m)) ==
            SumOver(symbols, CostOf(m - {id})) + Abs(Value(m[id].qty, m[id].worst))
  {
    ValueSign(m[id].qty, m[id].worst);
    forall s | s in symbols
      ensures CostOf(m)(s) == CostOf(m - {id})(s) + CostFor(m, s)(id)
    {
      CostWithout(m, id, s);
    }
    SumOverUpdate(symbols, CostOf(m - {id}), CostOf(m), m[id].symbol);
  }

  lemma {:induction false} CostWithout(m: map<string, Order>, id: string, s: string)
    requires id in m
    ensures CostOf(m)(s) == CostOf(m - {id})(s) + CostFor(m, s)(id)
  {
    SumOverRemove(m.Keys, CostFor(m, s), id);
    assert m.Keys - {id} == (m - {id}).Keys;
    SumOverSame(m.Keys - {id}, CostFor(m, s), CostFor(m - {id}, s));
  }

  lemma {:induction false} ShadowsAddUp(l: Ledger, symbols: set<string>)
    requires SaneBooks(l)
    ensures SumOver(symbols, ShadowExposure(l))
         == SumOver(symbols, PositionExposure(l.confirmed)) + SumOver(symbols, CostOf(l.purgatory))
  {
    forall s | s in symbols
      ensures ShadowExposure(l)(s) == PositionExposure(l.confirmed)(s) + CostOf(l.purgatory)(s)
    {
      ShadowIsValuePlusCost(l, s);
    }
    SumOverAdd(symbols, PositionExposure(l.confirmed), CostOf(l.purgatory), ShadowExposure(l));
  }

  /** The total the gate compares with the limit is the sum of the (unrounded) shadow exposures. */
  lemma {:induction false} ExposureIsSumOfShadows(l: Ledger)
    requires SaneBooks(l)
    ensures Exposure(l) == SumOver(SymbolsOf(l), ShadowExposure(l))
  {
    ShadowsAddUp(l, SymbolsOf(l));
    SumOverSubset(l.confirmed.Keys, SymbolsOf(l), PositionExposure(l.confirmed));
    CostsByGroup(l.purgatory, SymbolsOf(l));
  }
}
