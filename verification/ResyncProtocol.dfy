/**
 Recovery of order books after gaps and reconnects: per-symbol states, a queue of resync requests
 stamped with the connection epoch, one pump that fetches REST snapshots, and the reconnect handler.

 `Mux` is the state as a value and each step of the event loop is a function on it; the class keeps the
 state in its fields and each of its methods is one step. Taking an entry off the queue and handling
 it are two steps, because an event loop may run other callbacks in between. The book's answer to a
 delta and the outcome of a fetch are parameters. `reconnects`, `asked` and `ingests` only record
 history.
 */
module ResyncProtocol {
  import opened Options
  import opened Levels
  import opened DeltaRings
  import opened NdOrderBooks
  import BookTheorems
  import BookListings

  datatype BookState = Synced | Desynced | Recovering

  datatype Entry = Entry(symbol: string, epoch: nat, asked: nat)

  datatype Pump = Waiting | Taken(entry: Entry) | Fetching(entry: Entry) | Sleeping(symbol: string)

  /* A REST snapshot that was applied: how many reconnects had happened when it was asked for, and when applied. */
  datatype Ingest = Ingest(symbol: string, asked: nat, applied: nat)

  datatype Mux = Mux(states: map<string, BookState>, queue: seq<Entry>, pending: set<string>, epoch: nat, pump: Pump,
                     reconnects: nat, ingests: seq<Ingest>)

  datatype Config = Config(processors: set<string>, hasSource: bool)

  datatype Outcome = Fetched | RateLimited | Failed

  datatype Step =
    | Request(symbol: string)
    | Message(symbol: string, isDelta: bool, reject: Option<Reject>)
    | Reconnect(shard: set<string>)
    | Dequeue
    | Handle
    | Finish(outcome: Outcome)
    | Wake

  /** `request_resync`. */
  function Requested(c: Config, m: Mux, symbol: string): Mux {
    if !c.hasSource then m.(states := m.states[symbol := Desynced])
    else if symbol in m.pending then m
    else m.(pending := m.pending + {symbol}, queue := m.queue + [Entry(symbol, m.epoch, m.reconnects)])
  }

  function StateOf(m: Mux, symbol: string): BookState {
    if symbol in m.states then m.states[symbol] else Synced
  }

  /* The reasons after which the multiplexer starts a recovery. */
  predicate NeedsResync(reject: Option<Reject>) {
    reject == Some(SequenceGap) || reject == Some(InvalidRange) || reject == Some(NoSnapshotAnchor)
  }

  /** `_ingest_ws_payload` for a symbol that has a processor. */
  function Received(c: Config, m: Mux, symbol: string, isDelta: bool, reject: Option<Reject>): Mux {
    var m1 := m.(states := m.states[symbol := StateOf(m, symbol)]);
    match StateOf(m, symbol)
    case Recovering => m1
    case Desynced => Requested(c, m1.(states := m1.states[symbol := Recovering]), symbol)
    case Synced =>
      if isDelta && NeedsResync(reject) then Requested(c, m1.(states := m1.states[symbol := Recovering]), symbol)
      else m1
  }

  datatype Kind = SnapshotMessage | DeltaMessage | OtherMessage

  /** What a message does to the book of its symbol, by the state the symbol had. */
  function Delivered(st: BookState, b: Book, kind: Kind, d: Delta, cap: nat): Book {
    match st
    case Recovering => if kind == DeltaMessage then NdOrderBooks.Ingest(b, d, cap) else b
    case Desynced => b
    case Synced =>
      match kind
      case SnapshotMessage => Snapshot(b, d.id, d.bids, d.asks, cap)
      case DeltaMessage => NdOrderBooks.Ingest(b, d, cap)
      case OtherMessage => b
  }

  /** The `finally` block of a shard worker. */
  function Reconnected(m: Mux, shard: set<string>): Mux {
    m.(epoch := m.epoch + 1, reconnects := m.reconnects + 1, queue := [], pending := {},
       states := map s | s in m.states :: if s in shard then Desynced else m.states[s])
  }

  function Dequeued(m: Mux): Mux
    requires m.queue != []
  {
    m.(queue := m.queue[1..], pump := Taken(m.queue[0]))
  }

  /** The pump resumes with an entry: discard the pending mark, drop stale or unknown ones, else fetch. */
  function Handled(c: Config, m: Mux): Mux
    requires m.pump.Taken?
  {
    var e := m.pump.entry;
    var m1 := m.(pending := m.pending - {e.symbol});
    if e.epoch != m.epoch || e.symbol !in c.processors || !c.hasSource then m1.(pump := Waiting)
    else m1.(pump := Fetching(e))
  }

  /** The REST call of the pump has ended. */
  function Finished(c: Config, m: Mux, outcome: Outcome): Mux
    requires m.pump.Fetching?
  {
    var e := m.pump.entry;
    match outcome
    case Fetched =>
      if m.epoch != e.epoch then m.(pump := Waiting)
      else m.(pump := Waiting, states := m.states[e.symbol := Synced],
              ingests := m.ingests + [Ingest(e.symbol, e.asked, m.reconnects)])
    case RateLimited => Requested(c, m.(pump := Waiting, states := m.states[e.symbol := Recovering]), e.symbol)
    case Failed => m.(pump := Sleeping(e.symbol), states := m.states[e.symbol := Desynced])
  }

  function Woken(c: Config, m: Mux): Mux
    requires m.pump.Sleeping?
  {
    Requested(c, m.(pump := Waiting), m.pump.symbol)
  }

  predicate Enabled(c: Config, m: Mux, s: Step) {
    match s
    case Request(_) => true
    case Message(symbol, _, _) => symbol in c.processors
    case Reconnect(_) => true
    case Dequeue => m.pump.Waiting? && m.queue != []
    case Handle => m.pump.Taken?
    case Finish(_) => m.pump.Fetching?
    case Wake => m.pump.Sleeping?
  }

  function Next(c: Config, m: Mux, s: Step): Mux
    requires Enabled(c, m, s)
  {
    match s
    case Request(symbol) => Requested(c, m, symbol)
    case Message(symbol, isDelta, reject) => Received(c, m, symbol, isDelta, reject)
    case Reconnect(shard) => Reconnected(m, shard)
    case Dequeue => Dequeued(m)
    case Handle => Handled(c, m)
    case Finish(outcome) => Finished(c, m, outcome)
    case Wake => Woken(c, m)
  }

  function Start(c: Config): Mux {
    Mux(map s | s in c.processors :: Synced, [], {}, 0, Waiting, 0, [])
  }

  class Multiplexer {
    const config: Config
    var states: map<string, BookState>
    var queue: seq<Entry>
    var pending: set<string>
    var epoch: nat
    var pump: Pump
    ghost var reconnects: nat
    ghost var ingests: seq<Ingest>

    ghost function State(): Mux
      reads this
    {
      Mux(states, queue, pending, epoch, pump, reconnects, ingests)
    }

    ghost predicate Valid()
      reads this
    {
      epoch == reconnects
    }

    constructor (config: Config)
      ensures Valid() && this.config == config && State() == Start(config)
      ensures forall s :: s in config.processors ==> s in states && states[s] == Synced
    {
      this.config := config;
      states := map s | s in config.processors :: Synced;
      queue, pending, epoch, pump := [], {}, 0, Waiting;
      reconnects, ingests := 0, [];
    }

    method RequestResync(symbol: string)
      requires Valid()
      modifies this`states, this`pending, this`queue
      ensures Valid() && State() == Next(config, old(State()), Request(symbol))
    {
      if !config.hasSource {
        states := states[symbol := Desynced];
        return;
      }
      if symbol in pending {
        return;
      }
      pending := pending + {symbol};
      queue := queue + [Entry(symbol, epoch, epoch)];
    }

    method PurgeResyncQueue()
      modifies this`pending, this`queue
      ensures queue == [] && pending == {}
    {
      while queue != []
        decreases |queue|
      {
        queue := queue[1..];
      }
      pending := {};
    }

    /** `_ingest_ws_payload`; the parsed payload of a message has the fields of a delta. */
    method IngestWsPayload(symbol: string, proc: NdOrderBook, kind: Kind, d: Delta)
      requires Valid() && symbol in config.processors && proc.Valid()
      modifies this`states, this`pending, this`queue, proc.Repr()
      ensures Valid() && proc.Valid()
      ensures proc.State() == Delivered(StateOf(old(State()), symbol), old(proc.State()), kind, d, proc.cap)
      ensures State() == Next(config, old(State()), Message(symbol, kind == DeltaMessage, proc.reject))
    {
      var st := if symbol in states then states[symbol] else Synced;
      Deliver(st, proc, kind, d);
      Follow(symbol, proc, kind == DeltaMessage);
    }

    /* The symbol's state follows the answer of its book. */
    method Follow(symbol: string, proc: NdOrderBook, isDelta: bool)
      requires Valid() && symbol in config.processors && proc.Valid()
      modifies this`states, this`pending, this`queue
      ensures Valid() && proc.Valid() && proc.State() == old(proc.State())
      ensures State() == Next(config, old(State()), Message(symbol, isDelta, proc.reject))
    {
      MoveState(symbol, isDelta, proc.reject);
    }

    /* Hands the message to the book, unless the symbol is desynced. */
    method Deliver(st: BookState, proc: NdOrderBook, kind: Kind, d: Delta)
      requires proc.Valid()
      modifies proc.Repr()
      ensures State() == old(State())
      ensures proc.Valid() && proc.State() == Delivered(st, old(proc.State()), kind, d, proc.cap)
    {
      if st == Synced && kind == SnapshotMessage {
        proc.IngestSnapshot(d.id, d.bids, d.asks);
      } else if st != Desynced && kind == DeltaMessage {
        var _ := proc.IngestDelta(d);
      }
    }

    method MoveState(symbol: string, isDelta: bool, reject: Option<Reject>)
      requires Valid() && symbol in config.processors
      modifies this`states, this`pending, this`queue
      ensures Valid() && State() == Next(config, old(State()), Message(symbol, isDelta, reject))
    {
      if symbol !in states {
        states := states[symbol := Synced];
      }
      var st := states[symbol];
      assert states == old(states)[symbol := st];
      if st == Recovering {
        return;
      }
      if st == Desynced || (isDelta && NeedsResync(reject)) {
        states := states[symbol := Recovering];
        RequestResync(symbol);
      }
    }

    method ConnectionLost(shard: set<string>)
      requires Valid()
      modifies this
      ensures Valid() && State() == Next(config, old(State()), Reconnect(shard))
    {
      epoch := epoch + 1;
      reconnects := reconnects + 1;
      PurgeResyncQueue();
      states := map s | s in states :: if s in shard then Desynced else states[s];
    }

    method PumpDequeue()
      requires Valid() && pump.Waiting? && queue != []
      modifies this`queue, this`pump
      ensures Valid() && State() == Next(config, old(State()), Dequeue)
    {
      pump := Taken(queue[0]);
      queue := queue[1..];
    }

    method PumpHandle()
      requires Valid() && pump.Taken?
      modifies this`pending, this`pump
      ensures Valid() && State() == Next(config, old(State()), Handle)
    {
      var e := pump.entry;
      pending := pending - {e.symbol};
      if e.epoch != epoch || e.symbol !in config.processors || !config.hasSource {
        pump := Waiting;
        return;
      }
      pump := Fetching(e);
    }

    method PumpFinish(outcome: Outcome)
      requires Valid() && pump.Fetching?
      modifies this
      ensures Valid() && State() == Next(config, old(State()), Finish(outcome))
    {
      var e := pump.entry;
      match outcome {
        case Fetched =>
          pump := Waiting;
          if epoch != e.epoch {
            return;
          }
          ingests := ingests + [Ingest(e.symbol, e.asked, reconnects)];
          states := states[e.symbol := Synced];
        case RateLimited =>
          pump := Waiting;
          states := states[e.symbol := Recovering];
          RequestResync(e.symbol);
        case Failed =>
          states := states[e.symbol := Desynced];
          pump := Sleeping(e.symbol);
      }
    }

    method PumpWake()
      requires Valid() && pump.Sleeping?
      modifies this
      ensures Valid() && State() == Next(config, old(State()), Wake)
    {
      var symbol := pump.symbol;
      pump := Waiting;
      RequestResync(symbol);
    }
  }

  /* ---- what a recovery hands to the book ---- */

  datatype Packet = Packet(kind: Kind, payload: Delta)

  /* The book after the messages of a recovery. */
  function DeliveredAll(b: Book, ps: seq<Packet>, cap: nat): Book
    decreases |ps|
  {
    if ps == [] then b
    else DeliveredAll(Delivered(Recovering, b, ps[0].kind, ps[0].payload, cap), ps[1..], cap)
  }

  function DeltasOf(ps: seq<Packet>): seq<Delta> {
    if ps == [] then []
    else (if ps[0].kind == DeltaMessage then [ps[0].payload] else []) + DeltasOf(ps[1..])
  }

  lemma {:induction false} RecoveryIngestsDeltas(b: Book, ps: seq<Packet>, cap: nat)
    ensures DeliveredAll(b, ps, cap) == NdOrderBooks.IngestAll(b, DeltasOf(ps), cap)
    decreases |ps|
  {
    if ps != [] {
      var next, later := Delivered(Recovering, b, ps[0].kind, ps[0].payload, cap), DeltasOf(ps[1..]);
      RecoveryIngestsDeltas(next, ps[1..], cap);
      if ps[0].kind == DeltaMessage {
        assert DeltasOf(ps)[0] == ps[0].payload && DeltasOf(ps)[1..] == later;
      } else {
        assert DeltasOf(ps) == later;
      }
    }
  }

  /**
   A recovery loses nothing the ring can hold: whatever messages arrive between the reset of a book and its
   REST snapshot, the recovered book is the snapshot with their deltas fed live, as the ring gives them back.
   */
  lemma {:induction false} RecoveryIsLive(b: Book, ps: seq<Packet>, id: int, bids: seq<Quote>, asks: seq<Quote>,
                                          cap: nat)
    requires b.u == 0 && b.buf == [] && id > 0
    requires var ds := BookTheorems.Newest(BookTheorems.Stored(DeltasOf(ps)));
             && BookTheorems.NeverSeqStale(Snapshot(b, id, bids, asks, cap), ds, cap)
             && BookTheorems.NeverBackward(Snapshot(b, id, bids, asks, cap), ds, cap)
    ensures var ds := BookTheorems.Newest(BookTheorems.Stored(DeltasOf(ps)));
            BookTheorems.SameBook(Snapshot(DeliveredAll(b, ps, cap), id, bids, asks, cap),
                                  NdOrderBooks.IngestAll(Snapshot(b, id, bids, asks, cap), ds, cap))
  {
    RecoveryIngestsDeltas(b, ps, cap);
    BookTheorems.AnyFeedCommutesAsStored(b, DeltasOf(ps), id, bids, asks, cap);
  }

  /**
   The pump fetches for an entry exactly if it belongs to the current connection and to a symbol with a book, and
   there is a source; the symbol may be asked for again from then on either way.
   */
  lemma {:induction false} HandlingFetchesExactly(c: Config, m: Mux)
    requires m.pump.Taken?
    ensures var e, r := m.pump.entry, Handled(c, m);
            && (r.pump == Fetching(e) <==> e.epoch == m.epoch && e.symbol in c.processors && c.hasSource)
            && (r.pump == Fetching(e) || r.pump == Waiting) && e.symbol !in r.pending
            && r == m.(pump := r.pump, pending := m.pending - {e.symbol})
  {
  }

  /** A snapshot message to a synchronized symbol makes its book list exactly the message's quotes. */
  lemma {:induction false} SnapshotMessageLoads(b: Book, d: Delta, cap: nat)
    requires b.buf == [] && d.id > 0 && BookListings.Fitting(d.bids, [], cap) && BookListings.Fitting(d.asks, [], cap)
    ensures var r := Delivered(Synced, b, SnapshotMessage, d, cap);
            && r.ok && r.u == d.id
            && BookListings.Lists(true, r.bids, BookListings.RequotedAll(map[], d.bids))
            && BookListings.Lists(false, r.asks, BookListings.RequotedAll(map[], d.asks))
  {
    BookTheorems.SpliceIsTransparent(b, d.id, d.bids, d.asks, cap);
    BookListings.BookListsItsQuotes(b, d.id, d.bids, d.asks, [], cap);
  }

  /**
   A fetched snapshot synchronizes its symbol exactly if no reconnect came between; a rate limit leaves it
   RECOVERING and asked for again; a failure leaves it DESYNCED until the pump wakes and asks again.
   */
  lemma {:induction false} FinishLands(c: Config, m: Mux, outcome: Outcome)
    requires c.hasSource && m.pump.Fetching?
    ensures var e, r := m.pump.entry, Finished(c, m, outcome);
            && r.states - {e.symbol} == m.states - {e.symbol} && r.epoch == m.epoch
            && (outcome == Fetched && m.epoch == e.epoch ==>
                  e.symbol in r.states && r.states[e.symbol] == Synced && r.pump == Waiting)
            && (outcome == Fetched && m.epoch != e.epoch ==> r == m.(pump := Waiting))
            && (outcome == RateLimited ==>
                  && e.symbol in r.states && r.states[e.symbol] == Recovering
                  && e.symbol in r.pending && r.pump == Waiting)
            && (outcome == Failed ==>
                  e.symbol in r.states && r.states[e.symbol] == Desynced && r.pump == Sleeping(e.symbol)
                  && e.symbol in Woken(c, r).pending)
  {
    var e, r := m.pump.entry, Finished(c, m, outcome);
    assert r.states - {e.symbol} == m.states - {e.symbol};
  }

  /* ---- runs ---- */

  ghost predicate Run(c: Config, m: Mux, steps: seq<Step>)
    decreases |steps|
  {
    steps == [] || (Enabled(c, m, steps[0]) && Run(c, Next(c, m, steps[0]), steps[1..]))
  }

  function RunAll(c: Config, m: Mux, steps: seq<Step>): Mux
    requires Run(c, m, steps)
    decreases |steps|
  {
    if steps == [] then m else RunAll(c, Next(c, m, steps[0]), steps[1..])
  }

  /* ---- no snapshot from before a reconnect is applied ---- */

  ghost predicate Stamped(m: Mux, e: Entry) {
    e.epoch == e.asked && e.asked <= m.reconnects
  }

  ghost predicate FreshOnly(m: Mux) {
    && m.epoch == m.reconnects
    && (forall i :: 0 <= i < |m.queue| ==> m.queue[i].epoch == m.queue[i].asked == m.epoch)
    && (m.pump.Taken? || m.pump.Fetching? ==> Stamped(m, m.pump.entry))
    && (forall i :: 0 <= i < |m.ingests| ==> m.ingests[i].asked == m.ingests[i].applied)
  }

  lemma {:induction false} StepKeepsFresh(c: Config, m: Mux, s: Step)
    requires FreshOnly(m) && Enabled(c, m, s)
    ensures FreshOnly(Next(c, m, s))
  {
  }

  lemma {:induction false} RunKeepsFresh(c: Config, m: Mux, steps: seq<Step>)
    requires FreshOnly(m) && Run(c, m, steps)
    ensures FreshOnly(RunAll(c, m, steps))
    decreases |steps|
  {
    if steps != [] {
      StepKeepsFresh(c, m, steps[0]);
      RunKeepsFresh(c, Next(c, m, steps[0]), steps[1..]);
    }
  }

  /**
   In every run, whatever is interleaved where, every queued request belongs to the current
   connection, and a REST snapshot is applied only if no reconnect happened since it was asked for.
   */
  lemma {:induction false} SnapshotsAreFresh(c: Config, steps: seq<Step>)
    requires Run(c, Start(c), steps)
    ensures var m := RunAll(c, Start(c), steps);
            && (forall i :: 0 <= i < |m.queue| ==> m.queue[i].epoch == m.epoch)
            && (forall i :: 0 <= i < |m.ingests| ==> m.ingests[i].asked == m.ingests[i].applied)
  {
    RunKeepsFresh(c, Start(c), steps);
  }

  /* ---- every recovering book has somebody recovering it ---- */

  ghost predicate Queued(m: Mux, symbol: string) {
    exists i :: 0 <= i < |m.queue| && m.queue[i].symbol == symbol
  }

  /* Held by the pump for the current connection, so its result will count. */
  ghost predicate InFlight(m: Mux, symbol: string) {
    (m.pump.Taken? || m.pump.Fetching?) && m.pump.entry.symbol == symbol && m.pump.entry.epoch == m.epoch
  }

  ghost predicate Attended(c: Config, m: Mux) {
    && (m.pump.Fetching? ==> m.pump.entry.symbol in c.processors)
    && (forall s :: s in m.pending ==> Queued(m, s) || (m.pump.Taken? && InFlight(m, s)))
    && (forall s :: s in m.states && m.states[s] == Recovering ==>
          s in c.processors && (Queued(m, s) || InFlight(m, s)))
  }

  /* A reconnect marks every symbol that is recovering at that moment. */
  ghost predicate CoversRecovering(m: Mux, s: Step) {
    s.Reconnect? ==> forall x :: x in m.states && m.states[x] == Recovering ==> x in s.shard
  }

  /** Asking twice is asking once. */
  lemma {:induction false} RequestIsIdempotent(c: Config, m: Mux, symbol: string)
    ensures Requested(c, Requested(c, m, symbol), symbol) == Requested(c, m, symbol)
    ensures |Requested(c, m, symbol).queue| <= |m.queue| + 1
  {
    if !c.hasSource {
      assert m.states[symbol := Desynced][symbol := Desynced] == m.states[symbol := Desynced];
    }
  }

  /**
   A message moves its own symbol only: a desynced one to RECOVERING, asked for, a synced one likewise exactly on
   a refused delta that shows a hole, and a recovering one nowhere.
   */
  lemma {:induction false} MessageMoves(c: Config, m: Mux, symbol: string, isDelta: bool, reject: Option<Reject>)
    requires c.hasSource && (symbol in m.pending ==> Queued(m, symbol) || (m.pump.Taken? && InFlight(m, symbol)))
    ensures var r := Received(c, m, symbol, isDelta, reject);
            var was := if symbol in m.states then m.states[symbol] else Synced;
            var hole := reject == Some(SequenceGap) || reject == Some(InvalidRange) || reject == Some(NoSnapshotAnchor);
            && symbol in r.states && r.states - {symbol} == m.states - {symbol}
            && r.states[symbol] == (if was == Desynced || (was == Synced && isDelta && hole) then Recovering else was)
            && (was != Recovering && r.states[symbol] == Recovering ==>
                  symbol in r.pending && (Queued(r, symbol) || (r.pump.Taken? && InFlight(r, symbol))))
            && (r.states[symbol] == was ==> r.queue == m.queue && r.pending == m.pending)
            && r.epoch == m.epoch && r.pump == m.pump
  {
    var r := Received(c, m, symbol, isDelta, reject);
    assert r.states - {symbol} == m.states - {symbol};
    if symbol !in m.pending && r.queue != m.queue {
      assert r.queue[|m.queue|].symbol == symbol;
    }
  }

  /** Without a source of snapshots it falls back to DESYNCED, and nothing is queued. */
  lemma {:induction false} NoSourceNoRecovery(c: Config, m: Mux, symbol: string, isDelta: bool, reject: Option<Reject>)
    requires !c.hasSource
    ensures var r := Received(c, m, symbol, isDelta, reject);
            && r.queue == m.queue && r.pending == m.pending && symbol in r.states
            && (symbol in m.states && m.states[symbol] == Desynced ==> r.states[symbol] == Desynced)
  {
  }

  lemma {:induction false} RequestAttends(c: Config, m: Mux, symbol: string)
    requires c.hasSource && forall s :: s in m.pending ==> Queued(m, s) || (m.pump.Taken? && InFlight(m, s))
    ensures var r := Requested(c, m, symbol);
            && r.states == m.states && r.pump == m.pump && r.epoch == m.epoch
            && (Queued(r, symbol) || (r.pump.Taken? && InFlight(r, symbol)))
            && (forall s :: Queued(m, s) ==> Queued(r, s))
            && (forall s :: s in r.pending ==> Queued(r, s) || (r.pump.Taken? && InFlight(r, s)))
  {
    var r := Requested(c, m, symbol);
    if symbol !in m.pending {
      assert r.queue[|m.queue|].symbol == symbol;
    }
    forall s | Queued(m, s)
      ensures Queued(r, s)
    {
      var i :| 0 <= i < |m.queue| && m.queue[i].symbol == s;
      assert r.queue[i] == m.queue[i];
    }
  }

  lemma {:induction false} DequeueAttends(c: Config, m: Mux)
    requires FreshOnly(m) && Attended(c, m) && m.pump.Waiting? && m.queue != []
    ensures Attended(c, Dequeued(m))
  {
    var r := Dequeued(m);
    forall s | Queued(m, s)
      ensures Queued(r, s) || InFlight(r, s)
    {
      var i :| 0 <= i < |m.queue| && m.queue[i].symbol == s;
      if i > 0 {
        assert r.queue[i - 1] == m.queue[i];
      }
    }
  }

  lemma {:induction false} StepKeepsAttended(c: Config, m: Mux, s: Step)
    requires c.hasSource && FreshOnly(m) && Attended(c, m) && Enabled(c, m, s) && !s.Reconnect?
    ensures Attended(c, Next(c, m, s))
  {
    match s
    case Request(symbol) => RequestAttends(c, m, symbol);
    case Message(symbol, _, _) =>
      RequestAttends(c, m.(states := m.states[symbol := StateOf(m, symbol)][symbol := Recovering]), symbol);
      assert forall x :: Queued(m, x) ==> Queued(m.(states := m.states[symbol := StateOf(m, symbol)]), x);
    case Dequeue => DequeueAttends(c, m);
    case Finish(outcome) =>
      var e := m.pump.entry;
      if outcome == RateLimited {
        var m1 := m.(pump := Waiting, states := m.states[e.symbol := Recovering]);
        assert forall x :: Queued(m, x) <==> Queued(m1, x);
        RequestAttends(c, m1, e.symbol);
      } else {
        assert forall x :: Queued(m, x) <==> Queued(Next(c, m, s), x);
      }
    case Wake => RequestAttends(c, m.(pump := Waiting), m.pump.symbol);
    case _ =>
  }

  /** A reconnect leaves every recovering symbol attended exactly when it covers the symbols recovering then. */
  lemma {:induction false} ReconnectAttendsExactly(c: Config, m: Mux, shard: set<string>)
    requires FreshOnly(m) && Attended(c, m)
    ensures Attended(c, Reconnected(m, shard)) <==> CoversRecovering(m, Reconnect(shard))
  {
    var r := Reconnected(m, shard);
    assert forall x :: !Queued(r, x) && !InFlight(r, x);
    forall x | x in m.states && m.states[x] == Recovering && x !in shard
      ensures !Attended(c, r)
    {
      assert r.states[x] == Recovering;
    }
  }

  ghost predicate AttendedThroughout(c: Config, m: Mux, steps: seq<Step>)
    requires Run(c, m, steps)
    decreases |steps|
  {
    Attended(c, m) && (steps != [] ==> AttendedThroughout(c, Next(c, m, steps[0]), steps[1..]))
  }

  ghost predicate ReconnectsCover(c: Config, m: Mux, steps: seq<Step>)
    requires Run(c, m, steps)
    decreases |steps|
  {
    steps != [] ==> CoversRecovering(m, steps[0]) && ReconnectsCover(c, Next(c, m, steps[0]), steps[1..])
  }

  /**
   With a resync source and any number of shards: at every point of a run every recovering symbol is
   queued or in flight for the current connection, exactly when each reconnect marks all the symbols
   that are recovering when it happens.
   */
  lemma {:induction false} AttendedExactlyWhenCovered(c: Config, m: Mux, steps: seq<Step>)
    requires c.hasSource && FreshOnly(m) && Attended(c, m) && Run(c, m, steps)
    ensures AttendedThroughout(c, m, steps) <==> ReconnectsCover(c, m, steps)
    decreases |steps|
  {
    if steps != [] {
      var s := steps[0];
      StepKeepsFresh(c, m, s);
      if s.Reconnect? {
        ReconnectAttendsExactly(c, m, s.shard);
      } else {
        StepKeepsAttended(c, m, s);
      }
      if Attended(c, Next(c, m, s)) {
        AttendedExactlyWhenCovered(c, Next(c, m, s), steps[1..]);
      }
    }
  }

  lemma {:induction false} AttendedAtTheEnd(c: Config, m: Mux, steps: seq<Step>)
    requires Run(c, m, steps) && AttendedThroughout(c, m, steps)
    ensures Attended(c, RunAll(c, m, steps))
    decreases |steps|
  {
    if steps != [] {
      AttendedAtTheEnd(c, Next(c, m, steps[0]), steps[1..]);
    }
  }

  /* One shard: it serves every symbol there is a book for. */
  ghost predicate OneShard(c: Config, steps: seq<Step>) {
    forall i :: 0 <= i < |steps| && steps[i].Reconnect? ==> c.processors <= steps[i].shard
  }

  lemma {:induction false} OneShardCovers(c: Config, m: Mux, steps: seq<Step>)
    requires c.hasSource && FreshOnly(m) && Attended(c, m) && Run(c, m, steps) && OneShard(c, steps)
    ensures ReconnectsCover(c, m, steps)
    decreases |steps|
  {
    if steps != [] {
      var s := steps[0];
      StepKeepsFresh(c, m, s);
      if s.Reconnect? {
        ReconnectAttendsExactly(c, m, s.shard);
      } else {
        StepKeepsAttended(c, m, s);
      }
      assert forall i :: 0 <= i < |steps| - 1 ==> steps[1..][i] == steps[i + 1];
      OneShardCovers(c, Next(c, m, s), steps[1..]);
    }
  }

  /** In particular with one shard, which serves every symbol. */
  lemma {:induction false} RecoveringIsAttended(c: Config, steps: seq<Step>, symbol: string)
    requires c.hasSource && Run(c, Start(c), steps) && (OneShard(c, steps) || ReconnectsCover(c, Start(c), steps))
    requires symbol in RunAll(c, Start(c), steps).states && RunAll(c, Start(c), steps).states[symbol] == Recovering
    ensures Queued(RunAll(c, Start(c), steps), symbol) || InFlight(RunAll(c, Start(c), steps), symbol)
  {
    if OneShard(c, steps) {
      OneShardCovers(c, Start(c), steps);
    }
    AttendedExactlyWhenCovered(c, Start(c), steps);
    AttendedAtTheEnd(c, Start(c), steps);
  }

  /**
   With two shards this fails: the other shard's reconnect drains the request of a symbol whose state
   it leaves at RECOVERING, and nothing asks again.
   */
  lemma {:induction false} OtherShardStrandsASymbol() returns (c: Config, steps: seq<Step>)
    ensures c.hasSource && Run(c, Start(c), steps)
    ensures var m := RunAll(c, Start(c), steps);
            && "BTC" in m.states && m.states["BTC"] == Recovering
            && !Queued(m, "BTC") && !InFlight(m, "BTC") && m.pending == {}
  {
    c := Config({"BTC", "ETH"}, true);
    var gap, other := Message("BTC", true, Some(SequenceGap)), Reconnect({"ETH"});
    steps := [gap, other];
    var m0 := Start(c);
    var m1 := Next(c, m0, gap);
    var m2 := Next(c, m1, other);
    assert steps[1..] == [other] && [other][1..] == [];
    assert Run(c, m2, []) && Run(c, m1, [other]) && Run(c, m0, steps);
    assert RunAll(c, m0, steps) == RunAll(c, m1, [other]) == RunAll(c, m2, []) == m2;
  }

  /* ---- the pending marks ---- */

  /* Taken off the queue and not yet handled, with no reconnect since. */
  ghost predicate Held(m: Mux, symbol: string) {
    m.pump.Taken? && InFlight(m, symbol)
  }

  /* No symbol waits twice, and the pending marks are exactly the symbols that wait. */
  ghost predicate Marks(m: Mux) {
    && (forall i, j :: 0 <= i < j < |m.queue| ==> m.queue[i].symbol != m.queue[j].symbol)
    && (forall s :: s in m.pending <==> Queued(m, s) || Held(m, s))
    && (forall s :: Held(m, s) ==> !Queued(m, s))
  }

  lemma {:induction false} RequestKeepsMarks(c: Config, m: Mux, symbol: string)
    requires Marks(m)
    ensures Marks(Requested(c, m, symbol))
  {
    var r := Requested(c, m, symbol);
    if c.hasSource && symbol !in m.pending {
      RequestQueues(m, r, symbol);
    } else {
      assert r.queue == m.queue && r.pending == m.pending;
      assert forall s :: Queued(r, s) <==> Queued(m, s);
    }
  }

  lemma {:induction false} RequestQueues(m: Mux, r: Mux, symbol: string)
    requires r.queue == m.queue + [Entry(symbol, m.epoch, m.reconnects)]
    ensures forall s :: Queued(r, s) <==> Queued(m, s) || s == symbol
  {
    assert r.queue[|m.queue|].symbol == symbol;
    forall s
      ensures Queued(m, s) ==> Queued(r, s)
      ensures Queued(r, s) ==> Queued(m, s) || s == symbol
    {
      if Queued(m, s) {
        var i :| 0 <= i < |m.queue| && m.queue[i].symbol == s;
        assert r.queue[i] == m.queue[i];
      }
      if Queued(r, s) {
        var i :| 0 <= i < |r.queue| && r.queue[i].symbol == s;
        assert i < |m.queue| ==> m.queue[i] == r.queue[i];
      }
    }
  }

  lemma {:induction false} DequeueKeepsMarks(c: Config, m: Mux)
    requires FreshOnly(m) && Marks(m) && m.pump.Waiting? && m.queue != []
    ensures Marks(Dequeued(m))
  {
    var r := Dequeued(m);
    forall s
      ensures Queued(m, s) <==> Queued(r, s) || s == m.queue[0].symbol
      ensures s == m.queue[0].symbol ==> !Queued(r, s)
    {
      if Queued(m, s) && s != m.queue[0].symbol {
        var i :| 0 <= i < |m.queue| && m.queue[i].symbol == s;
        assert r.queue[i - 1] == m.queue[i];
      }
      if Queued(r, s) {
        var i :| 0 <= i < |r.queue| && r.queue[i].symbol == s;
        assert m.queue[i + 1] == r.queue[i];
      }
    }
  }

  /* The symbol of the entry in hand was not requested again. */
  ghost predicate HandlesCleanly(m: Mux, s: Step) {
    s.Handle? && m.pump.Taken? ==> !Queued(m, m.pump.entry.symbol)
  }

  /** Handling an entry keeps the marks exactly when its symbol was not requested again since it was taken. */
  lemma {:induction false} HandleKeepsMarksExactly(c: Config, m: Mux)
    requires Marks(m) && m.pump.Taken?
    ensures Marks(Handled(c, m)) <==> HandlesCleanly(m, Handle)
  {
    var r := Handled(c, m);
    assert forall s :: Queued(r, s) <==> Queued(m, s);
    assert m.pump.entry.symbol !in r.pending;
  }

  lemma {:induction false} OtherStepsKeepMarks(c: Config, m: Mux, s: Step)
    requires FreshOnly(m) && Marks(m) && Enabled(c, m, s) && !s.Handle?
    ensures Marks(Next(c, m, s))
  {
    match s
    case Request(symbol) => RequestKeepsMarks(c, m, symbol);
    case Message(symbol, _, _) =>
      var m1 := m.(states := m.states[symbol := StateOf(m, symbol)]);
      SameMarks(m, m1);
      var m2 := m1.(states := m1.states[symbol := Recovering]);
      SameMarks(m, m2);
      RequestKeepsMarks(c, m2, symbol);
    case Dequeue => DequeueKeepsMarks(c, m);
    case Finish(outcome) =>
      var m1 := m.(pump := Waiting, states := m.states[m.pump.entry.symbol := Recovering]);
      SameMarks(m, m1);
      RequestKeepsMarks(c, m1, m.pump.entry.symbol);
      if outcome != RateLimited {
        SameMarks(m, Next(c, m, s));
      }
    case Wake =>
      SameMarks(m, m.(pump := Waiting));
      RequestKeepsMarks(c, m.(pump := Waiting), m.pump.symbol);
    case Reconnect(shard) => assert forall x :: !Queued(Reconnected(m, shard), x);
  }

  lemma {:induction false} SameMarks(m: Mux, r: Mux)
    requires Marks(m) && r.queue == m.queue && r.pending == m.pending && r.epoch == m.epoch
    requires r.pump == m.pump || (!r.pump.Taken? && !m.pump.Taken?)
    ensures Marks(r)
  {
    assert forall s :: Queued(r, s) <==> Queued(m, s);
    assert forall s :: Held(r, s) <==> Held(m, s);
  }

  ghost predicate MarksThroughout(c: Config, m: Mux, steps: seq<Step>)
    requires Run(c, m, steps)
    decreases |steps|
  {
    Marks(m) && (steps != [] ==> MarksThroughout(c, Next(c, m, steps[0]), steps[1..]))
  }

  ghost predicate HandlesThroughout(c: Config, m: Mux, steps: seq<Step>)
    requires Run(c, m, steps)
    decreases |steps|
  {
    steps != [] ==> HandlesCleanly(m, steps[0]) && HandlesThroughout(c, Next(c, m, steps[0]), steps[1..])
  }

  /**
   At every point of a run the pending marks are exactly the waiting symbols and none waits twice,
   exactly when no entry is handled whose symbol was requested again after it was taken.
   */
  lemma {:induction false} MarksExactlyWhenHandledCleanly(c: Config, m: Mux, steps: seq<Step>)
    requires FreshOnly(m) && Marks(m) && Run(c, m, steps)
    ensures MarksThroughout(c, m, steps) <==> HandlesThroughout(c, m, steps)
    decreases |steps|
  {
    if steps != [] {
      var s := steps[0];
      StepKeepsFresh(c, m, s);
      if s.Handle? {
        HandleKeepsMarksExactly(c, m);
      } else {
        OtherStepsKeepMarks(c, m, s);
      }
      if Marks(Next(c, m, s)) {
        MarksExactlyWhenHandledCleanly(c, Next(c, m, s), steps[1..]);
      }
    }
  }

  /* No reconnect happens while an entry is taken and not yet handled. */
  ghost predicate QuietReconnects(c: Config, m: Mux, steps: seq<Step>)
    requires Run(c, m, steps)
    decreases |steps|
  {
    steps != [] ==> (steps[0].Reconnect? ==> !m.pump.Taken?) && QuietReconnects(c, Next(c, m, steps[0]), steps[1..])
  }

  /** Whatever else is interleaved, without a reconnect between taking and handling the marks always match. */
  lemma {:induction false} MarksMatchQueue(c: Config, m: Mux, steps: seq<Step>)
    requires FreshOnly(m) && Marks(m) && Run(c, m, steps) && QuietReconnects(c, m, steps)
    requires m.pump.Taken? ==> m.pump.entry.epoch == m.epoch
    ensures MarksThroughout(c, m, steps) && Marks(RunAll(c, m, steps))
    decreases |steps|
  {
    if steps != [] {
      var s := steps[0];
      StepKeepsFresh(c, m, s);
      if s.Handle? {
        assert Held(m, m.pump.entry.symbol);
        HandleKeepsMarksExactly(c, m);
      } else {
        OtherStepsKeepMarks(c, m, s);
      }
      MarksMatchQueue(c, Next(c, m, s), steps[1..]);
    }
  }

  /**
   The proviso is needed: if a reconnect and a new request slip in between taking an entry and handling
   it, the pending mark of the new request is lost and the symbol can be queued twice.
   */
  lemma {:induction false} SlippedReconnectQueuesTwice() returns (c: Config, steps: seq<Step>)
    ensures c.hasSource && Run(c, Start(c), steps)
    ensures var m := RunAll(c, Start(c), steps);
            |m.queue| == 2 && m.queue[0].symbol == m.queue[1].symbol
  {
    c := Config({"BTC"}, true);
    var req := Request("BTC");
    steps := [req, Dequeue, Reconnect({"BTC"}), req, Handle, req];
    var m1 := Next(c, Start(c), req);
    var m2 := Next(c, m1, Dequeue);
    var m3 := Next(c, m2, Reconnect({"BTC"}));
    var m4 := Next(c, m3, req);
    var m5 := Next(c, m4, Handle);
    var m6 := Next(c, m5, req);
    assert m4.queue == [Entry("BTC", 1, 1)] && m5.pending == {};
    assert Run(c, m6, []) && RunAll(c, m6, []) == m6;
    UnrollRun(c, m5, req, []);
    UnrollRun(c, m4, Handle, [req]);
    UnrollRun(c, m3, req, [Handle, req]);
    UnrollRun(c, m2, Reconnect({"BTC"}), [req, Handle, req]);
    UnrollRun(c, m1, Dequeue, [Reconnect({"BTC"}), req, Handle, req]);
    UnrollRun(c, Start(c), req, [Dequeue, Reconnect({"BTC"}), req, Handle, req]);
  }

  lemma {:induction false} UnrollRun(c: Config, m: Mux, s: Step, rest: seq<Step>)
    requires Enabled(c, m, s) && Run(c, Next(c, m, s), rest)
    ensures Run(c, m, [s] + rest) && RunAll(c, m, [s] + rest) == RunAll(c, Next(c, m, s), rest)
  {
    assert ([s] + rest)[1..] == rest;
  }
}
