/**
 The versioned ledger of signals: the last gate between an operator's click and an order. Prices and
 quantities are carried along and never computed with; the revocation callback is left out.
 */
module IntentLedgers {
  import opened Options

  datatype Intent = Intent(version: nat, symbol: string, side: string, price: real, qty: real, emittedAt: real,
                           ttl: real)

  datatype Active = Active(intent: Intent, revoked: bool, reason: string)

  datatype Ledger = Ledger(version: nat, active: Option<Active>, revokes: nat, staleClicks: nat)

  const NO_INTENT := Ledger(0, None, 0, 0)

  datatype Event =
    | Emit(symbol: string, side: string, price: real, qty: real, ttl: real, now: real)
    | Click(version: int, now: real)
    | Revoke(reason: string)

  function Revoked(l: Ledger, reason: string): Ledger {
    if l.active.None? || l.active.value.revoked then l
    else l.(active := Some(l.active.value.(revoked := true, reason := reason)),
            revokes := l.revokes + 1, version := l.version + 1)
  }

  function Clicked(l: Ledger, version: int, now: real): (Ledger, Option<Intent>) {
    if l.active.None? || version != l.active.value.intent.version || l.active.value.revoked
    then (l.(staleClicks := l.staleClicks + 1), None)
    else if now - l.active.value.intent.emittedAt > l.active.value.intent.ttl
    then (Revoked(l.(staleClicks := l.staleClicks + 1), "TTL_EXPIRED"), None)
    else (l, Some(l.active.value.intent))
  }

  function Emitted(l: Ledger, e: Event): Ledger
    requires e.Emit?
  {
    var v := l.version + 1;
    l.(version := v, active := Some(Active(Intent(v, e.symbol, e.side, e.price, e.qty, e.now, e.ttl), false, "")))
  }

  function Next(l: Ledger, e: Event): Ledger {
    match e
    case Emit(_, _, _, _, _, _) => Emitted(l, e)
    case Click(v, now) => Clicked(l, v, now).0
    case Revoke(reason) => Revoked(l, reason)
  }

  function Run(l: Ledger, es: seq<Event>): Ledger {
    if es == [] then l else Next(Run(l, es[..|es| - 1]), es[|es| - 1])
  }

  /** An intent is live exactly while its version is the ledger's own: every revocation moves past it. */
  predicate VersionInv(l: Ledger) {
    match l.active
    case None => l.version == 0
    case Some(a) => a.intent.version <= l.version && (!a.revoked <==> a.intent.version == l.version)
  }

  lemma {:induction false} RunKeepsVersion(es: seq<Event>)
    ensures VersionInv(Run(NO_INTENT, es))
    decreases |es|
  {
    if es != [] {
      RunKeepsVersion(es[..|es| - 1]);
    }
  }

  /** The newest emission of a history. */
  function LastEmission(es: seq<Event>): (r: Option<nat>)
    ensures r.Some? ==> r.value < |es| && es[r.value].Emit? && forall j :: r.value < j < |es| ==> !es[j].Emit?
    ensures r.None? ==> forall j :: 0 <= j < |es| ==> !es[j].Emit?
  {
    if es == [] then None
    else if es[|es| - 1].Emit? then Some(|es| - 1)
    else LastEmission(es[..|es| - 1])
  }

  /* The intent the emission `es[i]` created, numbered by the ledger as it then was. */
  ghost function IntentOf(es: seq<Event>, i: nat): Intent
    requires i < |es| && es[i].Emit?
  {
    var e := es[i];
    Intent(Run(NO_INTENT, es[..i]).version + 1, e.symbol, e.side, e.price, e.qty, e.now, e.ttl)
  }

  /* What ends an intent: a revocation, or a click on its own version that comes too late. */
  ghost predicate Ends(e: Event, a: Intent) {
    e.Revoke? || (e.Click? && e.version == a.version && e.now - a.emittedAt > a.ttl)
  }

  /* No event after the emission `es[i]` ended it. */
  ghost predicate Stands(es: seq<Event>, i: nat)
    requires i < |es| && es[i].Emit?
  {
    forall j :: i < j < |es| ==> !Ends(es[j], IntentOf(es, i))
  }

  /* The ledger's active intent said in terms of the history alone. */
  ghost predicate Explained(l: Ledger, es: seq<Event>) {
    match LastEmission(es)
    case None => l.active.None?
    case Some(i) =>
      l.active.Some? && l.active.value.intent == IntentOf(es, i) && (!l.active.value.revoked <==> Stands(es, i))
  }

  lemma {:induction false} StandsOneMore(es: seq<Event>, e: Event, i: nat)
    requires i < |es| && es[i].Emit?
    ensures IntentOf(es + [e], i) == IntentOf(es, i)
    ensures Stands(es + [e], i) <==> Stands(es, i) && !Ends(e, IntentOf(es, i))
  {
    var longer := es + [e];
    assert longer[..i] == es[..i];
    assert forall j :: i < j < |es| ==> longer[j] == es[j];
    assert longer[|es|] == e;
  }

  /**
   After any history, the ledger's active intent is the newest emission, and it is unrevoked exactly when
   nothing that came after ended it.
   */
  lemma {:induction false} HistoryExplainsLedger(es: seq<Event>)
    ensures Explained(Run(NO_INTENT, es), es)
    decreases |es|
  {
    if es != [] {
      var n := |es| - 1;
      var earlier, e := es[..n], es[n];
      HistoryExplainsLedger(earlier);
      RunKeepsVersion(earlier);
      assert es == earlier + [e];
      if !e.Emit? && LastEmission(earlier).Some? {
        StandsOneMore(earlier, e, LastEmission(earlier).value);
      }
    }
  }

  /** A click is honoured exactly when it names the newest emission, which still stands and has not expired. */
  lemma {:induction false} ClickIsSound(es: seq<Event>, version: int, now: real)
    ensures var r, i := Clicked(Run(NO_INTENT, es), version, now).1, LastEmission(es);
            r.Some? <==> (i.Some? && Stands(es, i.value) && IntentOf(es, i.value).version == version
                          && now - es[i.value].now <= es[i.value].ttl)
    ensures var r, i := Clicked(Run(NO_INTENT, es), version, now).1, LastEmission(es);
            r.Some? ==> i.Some? && r.value == IntentOf(es, i.value)
  {
    HistoryExplainsLedger(es);
  }

  /** The first revocation of an intent gives the reason, and no later one changes it. */
  lemma {:induction false} FirstReasonStays(l: Ledger, reason: string, later: string)
    requires l.active.Some? && !l.active.value.revoked
    ensures var r := Revoked(l, reason);
            && r.active == Some(Active(l.active.value.intent, true, reason)) && Revoked(r, later) == r
            && Revoked(NO_INTENT, reason) == NO_INTENT
  {
  }

  /* ---- what the counters count ---- */

  /* How many events of a history emit, end a live intent, or are clicks refused. */
  function Emissions(es: seq<Event>): nat {
    if es == [] then 0 else Emissions(es[..|es| - 1]) + (if es[|es| - 1].Emit? then 1 else 0)
  }

  ghost function Endings(es: seq<Event>): nat {
    if es == [] then 0
    else
      var earlier := es[..|es| - 1];
      var i := LastEmission(earlier);
      Endings(earlier) + (if i.Some? && Stands(earlier, i.value) && Ends(es[|es| - 1], IntentOf(earlier, i.value))
                          then 1 else 0)
  }

  ghost function Refusals(es: seq<Event>): nat {
    if es == [] then 0
    else
      var earlier, e := es[..|es| - 1], es[|es| - 1];
      Refusals(earlier) + (if e.Click? && Clicked(Run(NO_INTENT, earlier), e.version, e.now).1.None? then 1 else 0)
  }

  /** The version counts emissions and endings, the two counters endings and refused clicks. */
  lemma {:induction false} CountersCount(es: seq<Event>)
    ensures var l := Run(NO_INTENT, es);
            l.version == Emissions(es) + Endings(es) && l.revokes == Endings(es) && l.staleClicks == Refusals(es)
    decreases |es|
  {
    if es != [] {
      var earlier := es[..|es| - 1];
      CountersCount(earlier);
      HistoryExplainsLedger(earlier);
    }
  }

  /** Versions are never handed out twice, so a click on any older emission can never be honoured. */
  lemma {:induction false} OlderVersionsAreDead(es: seq<Event>, i: nat, now: real)
    requires i < |es| && es[i].Emit? && LastEmission(es) != Some(i)
    ensures Clicked(Run(NO_INTENT, es), IntentOf(es, i).version, now).1.None?
  {
    HistoryExplainsLedger(es);
    var k := LastEmission(es).value;
    VersionGrows(es, i + 1, k);
    assert es[..i + 1] == es[..i] + [es[i]];
  }

  /* The same ledger with the revoked flag of its intent cleared and nothing else changed. */
  ghost function Unflagged(l: Ledger): Ledger {
    match l.active
    case None => l
    case Some(a) => l.(active := Some(a.(revoked := false)))
  }

  /**
   The newer version a revocation hands out refuses nothing: after any history in which the newest emission
   was ended, the active intent still has the version a click on it names, and without the flag the click
   would be honoured until it expires.
   */
  lemma {:induction false} FlagAloneRefuses(es: seq<Event>, i: nat, now: real)
    requires LastEmission(es) == Some(i) && !Stands(es, i)
    ensures var l, a := Run(NO_INTENT, es), IntentOf(es, i);
            && l.version > a.version && l.active.Some? && l.active.value.intent == a
            && Clicked(l, a.version, now).1 == None
            && (Clicked(Unflagged(l), a.version, now).1 == Some(a) <==> now - a.emittedAt <= a.ttl)
  {
    HistoryExplainsLedger(es);
    RunKeepsVersion(es);
  }

  lemma {:induction false} VersionGrows(es: seq<Event>, a: nat, b: nat)
    requires a <= b <= |es|
    ensures Run(NO_INTENT, es[..a]).version <= Run(NO_INTENT, es[..b]).version
    decreases b
  {
    if a != b {
      VersionGrows(es, a, b - 1);
      assert es[..b] == es[..b - 1] + [es[b - 1]];
    }
  }

  class IntentLedger {
    var version: nat
    var active: Option<Active>
    var revokes: nat
    var staleClicks: nat

    function State(): Ledger
      reads this
    {
      Ledger(version, active, revokes, staleClicks)
    }

    constructor ()
      ensures State() == NO_INTENT
    {
      version, active, revokes, staleClicks := 0, None, 0, 0;
    }

    method EmitIntent(symbol: string, side: string, price: real, qty: real, ttl: real, now: real) returns (v: nat)
      modifies this
      ensures State() == Next(old(State()), Emit(symbol, side, price, qty, ttl, now)) && v == version
    {
      version := version + 1;
      active := Some(Active(Intent(version, symbol, side, price, qty, now, ttl), false, ""));
      return version;
    }

    method ValidateClick(clicked: int, now: real) returns (r: Option<Intent>)
      modifies this
      ensures (State(), r) == Clicked(old(State()), clicked, now)
    {
      if active.None? || clicked != active.value.intent.version || active.value.revoked {
        staleClicks := staleClicks + 1;
        return None;
      }
      if now - active.value.intent.emittedAt > active.value.intent.ttl {
        staleClicks := staleClicks + 1;
        RevokeActive("TTL_EXPIRED");
        return None;
      }
      return Some(active.value.intent);
    }

    method RevokeActive(reason: string)
      modifies this
      ensures State() == Revoked(old(State()), reason)
    {
      if active.Some? && !active.value.revoked {
        active := Some(active.value.(revoked := true, reason := reason));
        revokes := revokes + 1;
        version := version + 1;
      }
    }
  }
}
