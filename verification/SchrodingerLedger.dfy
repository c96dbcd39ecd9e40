/**
 The conservative position ledger: confirmed positions plus "purgatory", the orders dispatched but not
 yet resolved, each counted as if filled at its worst price.

 `Ledger` is the state as a value with the operations as functions; the class keeps it in two
 dictionaries and a log. Sides and exchange statuses arrive already normalised from strings; prices
 and quantities are reals; the display rounding of a shadow position is not part of the model.
 */
module SchrodingerLedgers {
  import opened Reals
  import opened Sums

  datatype Side = Buy | Sell

  datatype Fate = NeverReceived | Filled | PartiallyFilled | Cancelled | Rejected | Indeterminate

  datatype Order = Order(id: string, symbol: string, side: Side, qty: real, worst: real,
                         dispatched: real, preFlight: real, attempts: nat)

  datatype Position = Position(qty: real, avgPx: real)

  datatype Verdict = Verdict(id: string, fate: Fate, filledQty: real, filledPx: real)

  datatype Ledger = Ledger(confirmed: map<string, Position>, purgatory: map<string, Order>, generation: nat,
                           log: seq<Verdict>)

  const EMPTY_LEDGER := Ledger(map[], map[], 0, [])

  function Value(qty: real, px: real): real { qty * px }

  /** Bounded audit trail: past 1000 verdicts only the last 500 are kept. */
  function Audited(log: seq<Verdict>, v: Verdict): (r: seq<Verdict>)
    ensures |log| <= 1000 ==> |r| <= 1000
  {
    var longer := log + [v];
    if |longer| > 1000 then longer[|longer| - 500..] else longer
  }

  /** The trail ends with the new verdict and keeps the newest ones in order: all while they are at most 1000. */
  lemma {:induction false} AuditKeepsTheNewest(log: seq<Verdict>, v: Verdict)
    ensures var r, longer := Audited(log, v), log + [v];
            && |r| == (if |longer| <= 1000 then |longer| else 500)
            && r == longer[|longer| - |r|..]
  {
    var longer := log + [v];
    assert longer[0..] == longer;
  }

  /** VWAP merge of a buy; a sell only reduces the quantity, down to zero. */
  function Merged(p: Position, side: Side, qty: real, px: real): Position {
    match side
    case Buy =>
      var n := p.qty + qty;
      Position(n, if n > 0.0 then (Value(p.qty, p.avgPx) + Value(qty, px)) / n else p.avgPx)
    case Sell =>
      Position(if p.qty - qty < 0.0 then 0.0 else p.qty - qty, p.avgPx)
  }

  function Held(l: Ledger, symbol: string): Position {
    if symbol in l.confirmed then l.confirmed[symbol] else Position(0.0, 0.0)
  }

  function MergeConfirmed(l: Ledger, o: Order, qty: real, px: real): Ledger {
    l.(confirmed := l.confirmed[o.symbol := Merged(Held(l, o.symbol), o.side, qty, px)])
  }

  function Resolve(l: Ledger, id: string): Ledger {
    l.(purgatory := l.purgatory - {id})
  }

  function Bump(l: Ledger, v: Verdict): Ledger {
    l.(generation := l.generation + 1, log := Audited(l.log, v))
  }

  /** What the exchange's answer about an order does to the books. */
  function Reconciled(l: Ledger, id: string, fate: Fate, qty: real, px: real): Ledger
    requires id in l.purgatory
  {
    var o := l.purgatory[id];
    match fate
    case Filled => if qty > 0.0 then MergeConfirmed(Resolve(l, id), o, qty, px) else Resolve(l, id)
    case PartiallyFilled => if qty > 0.0 then MergeConfirmed(Resolve(l, id), o, qty, px) else Resolve(l, id)
    case Indeterminate => l.(purgatory := l.purgatory[id := o.(attempts := o.attempts + 1)])
    case _ => Resolve(l, id)
  }

  datatype Event =
    | Dispatch(order: Order)
    | Fill(id: string, qty: real, px: real)
    | Rejection(id: string, fate: Fate)
    | Reconcile(id: string, fate: Fate, qty: real, px: real)
    | Lost(id: string)

  function Apply(l: Ledger, e: Event): Ledger {
    match e
    case Dispatch(o) => l.(purgatory := l.purgatory[o.id := o], generation := l.generation + 1)
    case Fill(id, qty, px) =>
      if id !in l.purgatory then l
      else Bump(MergeConfirmed(Resolve(l, id), l.purgatory[id], qty, px), Verdict(id, Filled, qty, px))
    case Rejection(id, fate) => Bump(Resolve(l, id), Verdict(id, fate, 0.0, 0.0))
    case Reconcile(id, fate, qty, px) =>
      if id !in l.purgatory then l else Bump(Reconciled(l, id, fate, qty, px), Verdict(id, fate, qty, px))
    case Lost(id) => Bump(Resolve(l, id), Verdict(id, NeverReceived, 0.0, 0.0))
  }

  /* ---- exposure ---- */

  ghost function PositionExposure(m: map<string, Position>): string -> real {
    (k: string) => if k in m then Abs(Value(m[k].qty, m[k].avgPx)) else 0.0
  }

  ghost function OrderExposure(m: map<string, Order>): string -> real {
    (k: string) => if k in m then Abs(Value(m[k].qty, m[k].worst)) else 0.0
  }

  ghost function ConfirmedTotal(m: map<string, Position>): real {
    SumOver(m.Keys, PositionExposure(m))
  }

  ghost function PurgatoryTotal(m: map<string, Order>): real {
    SumOver(m.Keys, OrderExposure(m))
  }

  ghost function Exposure(l: Ledger): real {
    ConfirmedTotal(l.confirmed) + PurgatoryTotal(l.purgatory)
  }

  ghost predicate Waiting(l: Ledger, symbol: string) {
    exists id :: id in l.purgatory && l.purgatory[id].symbol == symbol
  }

  /** `is_strike_allowed`: nothing in superposition for the symbol and the total below the limit. */
  ghost predicate StrikeAllowed(l: Ledger, symbol: string, limit: real) {
    !Waiting(l, symbol) && Exposure(l) < limit
  }

  class SchrodingerLedger {
    const limit: real
    var confirmed: map<string, Position>
    var purgatory: map<string, Order>
    var generation: nat
    var log: seq<Verdict>

    function State(): Ledger
      reads this
    {
      Ledger(confirmed, purgatory, generation, log)
    }

    constructor (limit: real)
      ensures this.limit == limit && State() == EMPTY_LEDGER
    {
      this.limit := limit;
      confirmed, purgatory, generation, log := map[], map[], 0, [];
    }

    method Audit(v: Verdict)
      modifies this`log
      ensures log == Audited(old(log), v)
    {
      log := log + [v];
      if |log| > 1000 {
        log := log[|log| - 500..];
      }
    }

    method Merge(symbol: string, side: Side, qty: real, px: real)
      modifies this`confirmed
      ensures confirmed == old(confirmed)[symbol := Merged(Held(old(State()), symbol), side, qty, px)]
    {
      if symbol !in confirmed {
        confirmed := confirmed[symbol := Position(0.0, 0.0)];
      }
      var pos := confirmed[symbol];
      if side == Buy {
        var newQty := pos.qty + qty;
        var avg := if newQty > 0.0 then (Value(pos.qty, pos.avgPx) + Value(qty, px)) / newQty else pos.avgPx;
        confirmed := confirmed[symbol := Position(newQty, avg)];
        assert confirmed == old(confirmed)[symbol := Position(newQty, avg)];
      } else {
        var left := if pos.qty - qty < 0.0 then 0.0 else pos.qty - qty;
        confirmed := confirmed[symbol := Position(left, pos.avgPx)];
        assert confirmed == old(confirmed)[symbol := Position(left, pos.avgPx)];
      }
    }

    method RecordDispatch(o: Order)
      modifies this
      ensures State() == Apply(old(State()), Dispatch(o))
    {
      purgatory := purgatory[o.id := o];
      generation := generation + 1;
    }

    method ConfirmFill(id: string, qty: real, px: real)
      modifies this
      ensures State() == Apply(old(State()), Fill(id, qty, px))
    {
      if id !in purgatory {
        return;
      }
      var o := purgatory[id];
      purgatory := purgatory - {id};
      Merge(o.symbol, o.side, qty, px);
      generation := generation + 1;
      Audit(Verdict(id, Filled, qty, px));
    }

    method ConfirmRejection(id: string, reasonMentionsReject: bool)
      modifies this
      ensures State() == Apply(old(State()), Rejection(id, if reasonMentionsReject then Rejected else Cancelled))
    {
      purgatory := purgatory - {id};
      generation := generation + 1;
      Audit(Verdict(id, if reasonMentionsReject then Rejected else Cancelled, 0.0, 0.0));
    }

    method ReconcileOrder(id: string, fate: Fate, qty: real, px: real)
      modifies this
      ensures State() == Apply(old(State()), Reconcile(id, fate, qty, px))
    {
      if id !in purgatory {
        return;
      }
      Settle(id, fate, qty, px);
      generation := generation + 1;
      Audit(Verdict(id, fate, qty, px));
    }

    /* The cases of `reconcile_order`. */
    method Settle(id: string, fate: Fate, qty: real, px: real)
      requires id in purgatory
      modifies this`confirmed, this`purgatory
      ensures State() == Reconciled(old(State()), id, fate, qty, px)
    {
      var o := purgatory[id];
      if fate == Filled || fate == PartiallyFilled {
        purgatory := purgatory - {id};
        if qty > 0.0 {
          Merge(o.symbol, o.side, qty, px);
        }
      } else if fate == Cancelled || fate == Rejected || fate == NeverReceived {
        purgatory := purgatory - {id};
      } else {
        purgatory := purgatory[id := o.(attempts := o.attempts + 1)];
      }
    }

    method MarkNeverReceived(id: string)
      modifies this
      ensures State() == Apply(old(State()), Lost(id))
    {
      purgatory := purgatory - {id};
      generation := generation + 1;
      Audit(Verdict(id, NeverReceived, 0.0, 0.0));
    }

    method IsStrikeAllowed(symbol: string) returns (allowed: bool)
      ensures allowed <==> StrikeAllowed(State(), symbol, limit)
    {
      var todo := purgatory.Keys;
      while todo != {}
        invariant todo <= purgatory.Keys
        invariant forall id :: id in purgatory && id !in todo ==> purgatory[id].symbol != symbol
        decreases |todo|
      {
        var k :| k in todo;
        if purgatory[k].symbol == symbol {
          return false;
        }
        todo := todo - {k};
      }
      var held := AddPositions(confirmed);
      var pending := AddOrders(purgatory);
      allowed := held + pending < limit;
    }

    /** `get_shadow_position`, before display rounding. */
    method GetShadowPosition(symbol: string) returns (shadow: Shadow)
      ensures shadow == ShadowOf(State(), symbol)
    {
      var held := if symbol in confirmed then confirmed[symbol] else Position(0.0, 0.0);
      var purgQty, purgCost, purgCount := AddOrdersFor(purgatory, symbol);
      var qty := held.qty + purgQty;
      var avg := if qty > 0.0 then (Value(held.qty, held.avgPx) + purgCost) / qty else held.avgPx;
      shadow := Shadow(symbol, held.qty, qty, held.avgPx, avg, purgCount, Value(qty, avg));
    }
  }

  /* ---- the loops over dictionary values ---- */

  method AddPositions(m: map<string, Position>) returns (total: real)
    ensures total == ConfirmedTotal(m)
  {
    total := 0.0;
    var todo := m.Keys;
    ghost var f := PositionExposure(m);
    while todo != {}
      invariant todo <= m.Keys
      invariant total + SumOver(todo, f) == SumOver(m.Keys, f)
      decreases |todo|
    {
      var k :| k in todo;
      SumOverRemove(todo, f, k);
      total := total + Abs(Value(m[k].qty, m[k].avgPx));
      todo := todo - {k};
    }
  }

  method AddOrders(m: map<string, Order>) returns (total: real)
    ensures total == PurgatoryTotal(m)
  {
    total := 0.0;
    var todo := m.Keys;
    ghost var f := OrderExposure(m);
    while todo != {}
      invariant todo <= m.Keys
      invariant total + SumOver(todo, f) == SumOver(m.Keys, f)
      decreases |todo|
    {
      var k :| k in todo;
      SumOverRemove(todo, f, k);
      total := total + Abs(Value(m[k].qty, m[k].worst));
      todo := todo - {k};
    }
  }

  method AddOrdersFor(m: map<string, Order>, symbol: string) returns (qty: real, cost: real, count: nat)
    ensures qty == SumOver(m.Keys, QtyFor(m, symbol)) && cost == SumOver(m.Keys, CostFor(m, symbol))
    ensures count == |OrdersOf(m, symbol)|
  {
    qty, cost, count := 0.0, 0.0, 0;
    assert OrdersOf(m, symbol) - m.Keys == {};
    var todo := m.Keys;
    while todo != {}
      invariant Added(m, symbol, todo, qty, cost, count)
      decreases |todo|
    {
      var k :| k in todo;
      AddedOneMore(m, symbol, todo, k, qty, cost, count);
      if m[k].symbol == symbol {
        qty := qty + m[k].qty;
        cost := cost + Value(m[k].qty, m[k].worst);
        count := count + 1;
      }
      todo := todo - {k};
    }
    assert OrdersOf(m, symbol) - todo == OrdersOf(m, symbol);
  }

  ghost function OrdersOf(m: map<string, Order>, symbol: string): set<string> {
    set id | id in m && m[id].symbol == symbol
  }

  /* The totals over the orders outside `todo`. */
  ghost predicate Added(m: map<string, Order>, symbol: string, todo: set<string>, qty: real, cost: real, count: nat) {
    && todo <= m.Keys
    && qty + SumOver(todo, QtyFor(m, symbol)) == SumOver(m.Keys, QtyFor(m, symbol))
    && cost + SumOver(todo, CostFor(m, symbol)) == SumOver(m.Keys, CostFor(m, symbol))
    && count == |OrdersOf(m, symbol) - todo|
  }

  lemma {:induction false} AddedOneMore(m: map<string, Order>, symbol: string, todo: set<string>, k: string,
                                        qty: real, cost: real, count: nat)
    requires Added(m, symbol, todo, qty, cost, count) && k in todo
    ensures var hit := m[k].symbol == symbol;
            Added(m, symbol, todo - {k}, if hit then qty + m[k].qty else qty,
                  if hit then cost + Value(m[k].qty, m[k].worst) else cost, if hit then count + 1 else count)
  {
    SumOverRemove(todo, QtyFor(m, symbol), k);
    SumOverRemove(todo, CostFor(m, symbol), k);
    CountedOneMore(m, symbol, todo, k);
  }

  lemma {:induction false} CountedOneMore(m: map<string, Order>, symbol: string, todo: set<string>, k: string)
    requires k in todo && k in m
    ensures |OrdersOf(m, symbol) - (todo - {k})| ==
            |OrdersOf(m, symbol) - todo| + (if m[k].symbol == symbol then 1 else 0)
  {
    var rest := OrdersOf(m, symbol) - todo;
    if m[k].symbol == symbol {
      assert OrdersOf(m, symbol) - (todo - {k}) == rest + {k};
    } else {
      assert OrdersOf(m, symbol) - (todo - {k}) == rest;
    }
  }

  /* The pessimistic view of one symbol. */
  datatype Shadow = Shadow(symbol: string, confirmedQty: real, qty: real, confirmedAvgPx: real, avgPx: real, count: nat,
                           exposure: real)

  ghost function QtyFor(m: map<string, Order>, symbol: string): string -> real {
    (k: string) => if k in m && m[k].symbol == symbol then m[k].qty else 0.0
  }

  ghost function CostFor(m: map<string, Order>, symbol: string): string -> real {
    (k: string) => if k in m && m[k].symbol == symbol then Value(m[k].qty, m[k].worst) else 0.0
  }

  /** A position to which `more` is added at the total price `cost`. */
  function Pessimistic(symbol: string, held: Position, more: real, cost: real, count: nat): Shadow {
    var qty := held.qty + more;
    var avg := if qty > 0.0 then (Value(held.qty, held.avgPx) + cost) / qty else held.avgPx;
    Shadow(symbol, held.qty, qty, held.avgPx, avg, count, Value(qty, avg))
  }

  ghost function ShadowOf(l: Ledger, symbol: string): Shadow {
    Pessimistic(symbol, Held(l, symbol), SumOver(l.purgatory.Keys, QtyFor(l.purgatory, symbol)),
                SumOver(l.purgatory.Keys, CostFor(l.purgatory, symbol)), |OrdersOf(l.purgatory, symbol)|)
  }
}
