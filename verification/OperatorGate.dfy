/**
 The operator gate: capsules are minted and checked against the tilt breaker and the intent ledger. A run
 interleaves the gate's own operations with whatever heartbeats, checks, unlocks, emissions and
 revocations arrive, and with clicks on arbitrary capsules.
 */
module OperatorGates {
  import opened Options
  import T = TiltBreaker
  import C = IntentCapsules
  import L = IntentLedgers

  /* Fixed when the gate is built. */
  datatype Setup = Setup(tilt: T.Settings, ttl: real, max: nat)

  datatype Gate = Gate(sentinel: T.Sentinel, key: nat, validator: C.Validator, ledger: L.Ledger, issued: nat,
                       executed: nat)

  datatype Event =
    | Issue(signal: string, symbol: string, side: string, nonce: string, now: real)
    | Rotate(newKey: nat)
    | Tilt(tilt: T.Event)
    | Intent(intent: L.Event)
    | Execute(capsule: C.Capsule, version: int, now: real, clickNow: real)

  function PayloadOf(g: Gate, e: Event): C.Payload
    requires e.Issue?
  {
    C.Payload(e.signal, e.symbol, e.side, g.sentinel.generation, e.nonce, e.now)
  }

  /** Both stages of `validate_execution`; the ledger reads the clock again for itself. */
  function Executed(k: Setup, g: Gate, e: Event): (Gate, C.Verdict)
    requires e.Execute?
  {
    var stage := C.Validated(g.validator, g.key, k.ttl, k.max, e.capsule, g.sentinel.generation,
                             T.ExecutionAllowed(g.sentinel), e.now);
    var checked := g.(validator := stage.0);
    if stage.1 != C.Allowed then (checked, stage.1)
    else
      var click := L.Clicked(g.ledger, e.version, e.clickNow);
      if click.1.None? then (checked.(ledger := click.0), C.Rejected(C.IntentInvalid))
      else (checked.(ledger := click.0, executed := g.executed + 1), C.Allowed)
  }

  function Next(k: Setup, g: Gate, e: Event): Gate {
    match e
    case Issue(_, _, _, _, _) => g.(issued := g.issued + 1)
    case Rotate(newKey) => g.(key := newKey)
    case Tilt(tilt) => g.(sentinel := T.Next(k.tilt, g.sentinel, tilt))
    case Intent(intent) => g.(ledger := L.Next(g.ledger, intent))
    case Execute(_, _, _, _) => Executed(k, g, e).0
  }

  function Run(k: Setup, g: Gate, es: seq<Event>): Gate {
    if es == [] then g else Next(k, Run(k, g, es[..|es| - 1]), es[|es| - 1])
  }

  function Start(sentinel: T.Sentinel, key: nat): Gate {
    Gate(sentinel, key, C.NEW_VALIDATOR, L.NO_INTENT, 0, 0)
  }

  /* The gate just before the event `es[i]`. */
  function At(k: Setup, g: Gate, es: seq<Event>, i: nat): Gate
    requires i <= |es|
  {
    Run(k, g, es[..i])
  }

  lemma {:induction false} AtNext(k: Setup, g: Gate, es: seq<Event>, i: nat)
    requires i < |es|
    ensures At(k, g, es, i + 1) == Next(k, At(k, g, es, i), es[i])
  {
    assert es[..i + 1][..i] == es[..i];
  }

  /** The click `es[i]` was approved. */
  predicate Approved(k: Setup, g: Gate, es: seq<Event>, i: nat)
    requires i < |es|
  {
    es[i].Execute? && Executed(k, At(k, g, es, i), es[i]).1 == C.Allowed
  }

  class OperatorGate {
    const sentinel: T.CognitiveSentinel
    const ledger: L.IntentLedger
    const forge: C.CapsuleForge
    const validator: C.CapsuleValidator
    var issued: nat
    var executed: nat

    ghost function State(): Gate
      reads this, sentinel, ledger, forge, validator
    {
      Gate(sentinel.State(), forge.key, validator.State(), ledger.State(), issued, executed)
    }

    ghost function Built(): Setup {
      Setup(sentinel.settings, validator.ttl, validator.max)
    }

    ghost predicate Valid()
      reads this, validator
    {
      validator.forge == forge && validator.Valid()
    }

    constructor (sentinel: T.CognitiveSentinel, ledger: L.IntentLedger, key: nat, ttl: real, max: nat)
      ensures Valid() && this.sentinel == sentinel && this.ledger == ledger
      ensures Built() == Setup(sentinel.settings, ttl, max)
      ensures State() == Start(sentinel.State(), key).(ledger := ledger.State())
    {
      this.sentinel, this.ledger := sentinel, ledger;
      var f := new C.CapsuleForge(key);
      var v := new C.CapsuleValidator(f, ttl, max);
      forge, validator := f, v;
      issued, executed := 0, 0;
    }

    method IssueCapsule(signal: string, symbol: string, side: string, nonce: string, now: real) returns (c: C.Capsule)
      requires Valid()
      modifies this
      ensures Valid() && State() == Next(Built(), old(State()), Issue(signal, symbol, side, nonce, now))
      ensures c == C.Mint(forge.key, PayloadOf(old(State()), Issue(signal, symbol, side, nonce, now)))
    {
      c := forge.Issue(signal, symbol, side, sentinel.generation, nonce, now);
      issued := issued + 1;
    }

    method ValidateExecution(capsule: C.Capsule, version: int, now: real, clickNow: real) returns (verdict: C.Verdict)
      requires Valid()
      modifies this, validator, ledger
      ensures Valid()
      ensures (State(), verdict) == Executed(Built(), old(State()), Execute(capsule, version, now, clickNow))
    {
      verdict := validator.Validate(capsule, sentinel.generation, T.ExecutionAllowed(sentinel.State()), now);
      if verdict != C.Allowed {
        return;
      }
      var intent := ledger.ValidateClick(version, clickNow);
      if intent.None? {
        return C.Rejected(C.IntentInvalid);
      }
      executed := executed + 1;
      return C.Allowed;
    }

    method RotateSession(newKey: nat)
      requires Valid()
      modifies forge
      ensures Valid() && State() == Next(Built(), old(State()), Rotate(newKey))
    {
      forge.RotateKey(newKey);
    }
  }

  /* ---- what the outside world cannot do ---- */

  /* Keys drawn by the system never repeat. */
  ghost predicate FreshKeys(first: nat, es: seq<Event>) {
    && (forall i :: 0 <= i < |es| && es[i].Rotate? ==> es[i].newKey != first)
    && (forall i, j :: 0 <= i < j < |es| && es[i].Rotate? && es[j].Rotate? ==> es[i].newKey != es[j].newKey)
  }

  ghost predicate FreshNonces(es: seq<Event>) {
    forall i, j :: 0 <= i < j < |es| && es[i].Issue? && es[j].Issue? ==> es[i].nonce != es[j].nonce
  }

  /* `es[j]` minted exactly this capsule, under the key that is current at `es[i]`. */
  ghost predicate MintedAt(k: Setup, g: Gate, es: seq<Event>, j: nat, i: nat)
    requires j < |es| && i < |es| && es[i].Execute?
  {
    && es[j].Issue? && At(k, g, es, j).key == At(k, g, es, i).key
    && es[i].capsule == C.Mint(At(k, g, es, j).key, PayloadOf(At(k, g, es, j), es[j]))
  }

  /* An ideal signature: what verifies under the current key was minted under it before. */
  ghost predicate Unforged(k: Setup, g: Gate, es: seq<Event>) {
    forall i :: 0 <= i < |es| && es[i].Execute? && C.VerifySignature(At(k, g, es, i).key, es[i].capsule)
      ==> exists j: nat :: j < i && MintedAt(k, g, es, j, i)
  }

  /* ---- soundness of approval ---- */

  lemma {:induction false} SentinelsBetween(k: Setup, g: Gate, es: seq<Event>, j: nat, i: nat)
    requires j <= i <= |es|
    ensures At(k, g, es, j).sentinel.generation <= At(k, g, es, i).sentinel.generation
    ensures At(k, g, es, j).sentinel.generation == At(k, g, es, i).sentinel.generation
            ==> At(k, g, es, j).sentinel == At(k, g, es, i).sentinel
    decreases i
  {
    if j < i {
      SentinelsBetween(k, g, es, j, i - 1);
      AtNext(k, g, es, i - 1);
    }
  }

  /* The key after a run is the first one or the one of the last rotation. */
  lemma {:induction false} KeyIsLatest(k: Setup, g: Gate, es: seq<Event>, i: nat) returns (r: Option<nat>)
    requires i <= |es|
    ensures r.None? ==> At(k, g, es, i).key == g.key && forall m :: 0 <= m < i ==> !es[m].Rotate?
    ensures r.Some? ==> r.value < i && es[r.value].Rotate? && At(k, g, es, i).key == es[r.value].newKey
    ensures r.Some? ==> forall m :: r.value < m < i ==> !es[m].Rotate?
    decreases i
  {
    if i == 0 {
      r := None;
    } else {
      AtNext(k, g, es, i - 1);
      if es[i - 1].Rotate? {
        r := Some(i - 1);
      } else {
        r := KeyIsLatest(k, g, es, i - 1);
      }
    }
  }

  lemma {:induction false} RotationsDiffer(g: Gate, es: seq<Event>, i: nat, j: nat)
    requires FreshKeys(g.key, es) && i < j < |es| && es[i].Rotate? && es[j].Rotate?
    ensures es[i].newKey != es[j].newKey
  {
  }

  lemma {:induction false} RotationChangesKey(k: Setup, g: Gate, es: seq<Event>, j: nat, i: nat, m: nat)
    requires j <= m < i <= |es| && FreshKeys(g.key, es) && es[m].Rotate?
    ensures At(k, g, es, j).key != At(k, g, es, i).key
  {
    var a := KeyIsLatest(k, g, es, j);
    var b := KeyIsLatest(k, g, es, i);
    assert b.Some? && m <= b.value;
    if a.Some? {
      RotationsDiffer(g, es, a.value, b.value);
    }
  }

  lemma {:induction false} SameKeyMeansNoRotation(k: Setup, g: Gate, es: seq<Event>, j: nat, i: nat)
    requires j <= i <= |es| && FreshKeys(g.key, es) && At(k, g, es, j).key == At(k, g, es, i).key
    ensures forall m :: j <= m < i ==> !es[m].Rotate?
  {
    if m: nat :| j <= m < i && es[m].Rotate? {
      RotationChangesKey(k, g, es, j, i, m);
    }
  }

  /* ---- the ledger as the gate drives it ---- */

  /* Emissions and revocations as they arrive, and one click for every capsule that passes the first stage. */
  ghost function LedgerHistory(k: Setup, g: Gate, es: seq<Event>): seq<L.Event> {
    if es == [] then []
    else
      var n := |es| - 1;
      LedgerHistory(k, g, es[..n]) + LedgerEvent(k, Run(k, g, es[..n]), es[n])
  }

  ghost function LedgerEvent(k: Setup, g: Gate, e: Event): seq<L.Event> {
    if e.Intent? then [e.intent]
    else if e.Execute? && CapsulePasses(k, g, e) then [L.Click(e.version, e.clickNow)]
    else []
  }

  predicate CapsulePasses(k: Setup, g: Gate, e: Event)
    requires e.Execute?
  {
    C.Check(g.validator, g.key, k.ttl, e.capsule, g.sentinel.generation, T.ExecutionAllowed(g.sentinel), e.now)
    == C.Allowed
  }

  lemma {:induction false} LedgerOneMore(h: seq<L.Event>, x: seq<L.Event>)
    requires |x| <= 1
    ensures L.Run(L.NO_INTENT, h + x) == if x == [] then L.Run(L.NO_INTENT, h) else L.Next(L.Run(L.NO_INTENT, h), x[0])
  {
    if x != [] {
      assert (h + x)[..|h + x| - 1] == h;
    } else {
      assert h + x == h;
    }
  }

  /* A click reaches the ledger exactly when its capsule passes. */
  lemma {:induction false} ClickReachesLedger(k: Setup, g: Gate, e: Event)
    requires e.Execute?
    ensures Next(k, g, e).ledger ==
            if CapsulePasses(k, g, e) then L.Next(g.ledger, L.Click(e.version, e.clickNow)) else g.ledger
  {
  }

  lemma {:induction false} EventReachesLedger(k: Setup, g: Gate, e: Event)
    ensures |LedgerEvent(k, g, e)| <= 1
    ensures Next(k, g, e).ledger ==
            if LedgerEvent(k, g, e) == [] then g.ledger else L.Next(g.ledger, LedgerEvent(k, g, e)[0])
  {
    if e.Execute? {
      ClickReachesLedger(k, g, e);
    }
  }

  /* One event moves ledger and history alike. */
  lemma {:induction false} OneMoreEvent(k: Setup, before: Gate, e: Event, h: seq<L.Event>)
    requires before.ledger == L.Run(L.NO_INTENT, h)
    ensures Next(k, before, e).ledger == L.Run(L.NO_INTENT, h + LedgerEvent(k, before, e))
  {
    EventReachesLedger(k, before, e);
    LedgerOneMore(h, LedgerEvent(k, before, e));
  }

  lemma {:induction false} LedgerFollowsHistory(k: Setup, g: Gate, es: seq<Event>)
    requires g.ledger == L.NO_INTENT
    ensures Run(k, g, es).ledger == L.Run(L.NO_INTENT, LedgerHistory(k, g, es))
    decreases |es|
  {
    if es != [] {
      var n := |es| - 1;
      LedgerFollowsHistory(k, g, es[..n]);
      OneMoreEvent(k, Run(k, g, es[..n]), es[n], LedgerHistory(k, g, es[..n]));
    }
  }

  /* The click names the ledger's newest intent, which nothing ended and which is still alive. */
  ghost predicate NamesLiveIntent(k: Setup, g: Gate, es: seq<Event>, i: nat)
    requires i < |es| && es[i].Execute?
  {
    var h := LedgerHistory(k, g, es[..i]);
    var last := L.LastEmission(h);
    && last.Some? && L.Stands(h, last.value)
    && L.IntentOf(h, last.value).version == es[i].version
    && es[i].clickNow - h[last.value].now <= h[last.value].ttl
  }

  /* ---- soundness and completeness of approval ---- */

  /* Minted by `es[j]` in the same session, nothing changed about the operator since, and still within its life. */
  ghost predicate Permitted(k: Setup, g: Gate, es: seq<Event>, j: nat, i: nat)
    requires j < |es| && i < |es| && es[i].Execute?
  {
    && MintedAt(k, g, es, j, i) && (forall m :: j <= m < i ==> !es[m].Rotate?)
    && At(k, g, es, j).sentinel == At(k, g, es, i).sentinel
    && At(k, g, es, i).sentinel.state in {T.Clear, T.Elevated}
    && -C.CLOCK_SLACK <= es[i].now - es[j].now <= k.ttl
  }

  /* Its nonce is not among the `max` accepted last. */
  ghost predicate NotRecentlyUsed(k: Setup, g: Gate, es: seq<Event>, i: nat)
    requires i < |es| && es[i].Execute?
  {
    var log := At(k, g, es, i).validator.accepted;
    forall m :: 0 <= m < |log| && |log| - m <= k.max ==> log[m].nonce != es[i].capsule.payload.nonce
  }

  lemma {:induction false} CacheAlong(k: Setup, g: Gate, es: seq<Event>)
    requires g.validator == C.NEW_VALIDATOR
    ensures C.CacheInv(Run(k, g, es).validator, k.max)
    decreases |es|
  {
    if es == [] {
      assert C.SetOf([]) == {};
    } else {
      var n := |es| - 1;
      CacheAlong(k, g, es[..n]);
      var b, e := Run(k, g, es[..n]), es[n];
      if e.Execute? {
        C.ValidateKeepsCache(b.validator, b.key, k.ttl, k.max, e.capsule, b.sentinel.generation,
                             T.ExecutionAllowed(b.sentinel), e.now);
      }
    }
  }

  lemma {:induction false} UsedMeansRecent(v: C.Validator, max: nat, nonce: string)
    requires C.CacheInv(v, max)
    ensures nonce in v.used
            <==> exists m :: 0 <= m < |v.accepted| && |v.accepted| - m <= max && v.accepted[m].nonce == nonce
  {
    C.SetOfMembers(v.order);
    var d := |v.accepted| - |v.order|;
    if nonce in v.used {
      var x :| 0 <= x < |v.order| && v.order[x] == nonce;
      assert v.accepted[d + x].nonce == nonce;
    }
    forall m | 0 <= m < |v.accepted| && |v.accepted| - m <= max && v.accepted[m].nonce == nonce
      ensures nonce in v.used
    {
      assert v.order[m - d] == nonce;
    }
  }

  /**
   A click is approved exactly when its capsule was minted by this gate in the same session, nothing about
   the operator's state changed since, it is within its life and its nonce not recently used, and the click
   names the newest intent of the ledger, unrevoked and unexpired.
   */
  lemma {:induction false} ApprovalExactly(k: Setup, sentinel: T.Sentinel, key: nat, es: seq<Event>, i: nat)
    requires i < |es| && es[i].Execute? && FreshKeys(key, es) && Unforged(k, Start(sentinel, key), es)
    ensures var g := Start(sentinel, key);
            Approved(k, g, es, i) <==> (NamesLiveIntent(k, g, es, i) && NotRecentlyUsed(k, g, es, i)
                                        && exists j: nat :: j < i && Permitted(k, g, es, j, i))
  {
    var g := Start(sentinel, key);
    var before := At(k, g, es, i);
    LedgerFollowsHistory(k, g, es[..i]);
    L.ClickIsSound(LedgerHistory(k, g, es[..i]), es[i].version, es[i].clickNow);
    CacheAlong(k, g, es[..i]);
    UsedMeansRecent(before.validator, k.max, es[i].capsule.payload.nonce);
    if CapsulePasses(k, before, es[i]) {
      var j: nat :| j < i && MintedAt(k, g, es, j, i);
      SameKeyMeansNoRotation(k, g, es, j, i);
      SentinelsBetween(k, g, es, j, i);
      assert Permitted(k, g, es, j, i);
    }
  }

  /** A rotation ends every capsule minted before it. */
  lemma {:induction false} RotationEndsCapsules(k: Setup, sentinel: T.Sentinel, key: nat, es: seq<Event>,
                                                j: nat, m: nat, i: nat)
    requires j <= m < i < |es| && FreshKeys(key, es) && es[m].Rotate? && es[j].Issue? && es[i].Execute?
    requires var g := Start(sentinel, key);
             es[i].capsule == C.Mint(At(k, g, es, j).key, PayloadOf(At(k, g, es, j), es[j]))
    ensures !Approved(k, Start(sentinel, key), es, i)
  {
    var g := Start(sentinel, key);
    RotationChangesKey(k, g, es, j, i, m);
    C.SignedUnder(At(k, g, es, j).key, At(k, g, es, i).key, es[i].capsule);
  }

  /**
   Approval does not look at the symbol or the side: a capsule for any other symbol and side, minted under
   the same key with the same generation, nonce and time, gets the same verdict for the same intent.
   */
  lemma {:induction false} ApprovalIgnoresSymbol(k: Setup, g: Gate, p: C.Payload, symbol: string, side: string,
                                                 version: int, now: real, clickNow: real)
    ensures Executed(k, g, Execute(C.Mint(g.key, p), version, now, clickNow)).1
         == Executed(k, g, Execute(C.Mint(g.key, p.(symbol := symbol, side := side)), version, now, clickNow)).1
  {
  }

  /** So whatever symbol and side a capsule was issued for, it can approve an intent about any other. */
  lemma {:induction false} CapsuleApprovesAnotherSymbol(symbol: string, side: string, otherSymbol: string,
                                                        otherSide: string)
      returns (k: Setup, g: Gate, es: seq<Event>)
    ensures |es| == 3 && Unforged(k, g, es) && FreshKeys(g.key, es) && Approved(k, g, es, 2)
    ensures es[2].capsule.payload.symbol == symbol && es[2].capsule.payload.side == side
    ensures var intent := At(k, g, es, 2).ledger.active;
            intent.Some? && intent.value.intent.symbol == otherSymbol && intent.value.intent.side == otherSide
  {
    k := Setup(T.Settings(60.0, 5.0, 0.4, 0.35, 0.25), 1.2, 10);
    g := Start(T.Sentinel(T.Clear, 0, 0.0, 0.0, T.NO_REACTIONS, T.NO_CLICKS, 0), 7);
    var issue := Issue("signal", symbol, side, "nonce", 0.0);
    var emit := Intent(L.Emit(otherSymbol, otherSide, 1.0, 1.0, 5.0, 0.0));
    var p := PayloadOf(g, issue);
    es := [issue, emit, Execute(C.Mint(7, p), 1, 0.5, 0.5)];
    AtNext(k, g, es, 0);
    AtNext(k, g, es, 1);
    assert At(k, g, es, 0) == g;
    var before := At(k, g, es, 2);
    assert before.ledger.active.value.intent.symbol == otherSymbol;
    assert Executed(k, before, Execute(C.Mint(7, p.(symbol := otherSymbol, side := otherSide)), 1, 0.5, 0.5)).1
        == C.Allowed;
    ApprovalIgnoresSymbol(k, before, p, otherSymbol, otherSide, 1, 0.5, 0.5);
    assert MintedAt(k, g, es, 0, 2);
  }

  /* ---- what the counters count ---- */

  function Approvals(k: Setup, g: Gate, es: seq<Event>): nat {
    if es == [] then 0
    else
      var n := |es| - 1;
      Approvals(k, g, es[..n]) + (if es[n].Execute? && Executed(k, Run(k, g, es[..n]), es[n]).1 == C.Allowed
                                  then 1 else 0)
  }

  function Issues(es: seq<Event>): nat {
    if es == [] then 0 else Issues(es[..|es| - 1]) + (if es[|es| - 1].Issue? then 1 else 0)
  }

  /** From the start of a gate its counters are the capsules issued and the clicks approved. */
  lemma {:induction false} CountersCount(k: Setup, sentinel: T.Sentinel, key: nat, es: seq<Event>)
    ensures var r := Run(k, Start(sentinel, key), es);
            r.issued == Issues(es) && r.executed == Approvals(k, Start(sentinel, key), es)
    decreases |es|
  {
    if es != [] {
      CountersCount(k, sentinel, key, es[..|es| - 1]);
    }
  }

  /* ---- no capsule executes twice ---- */

  ghost predicate LogInv(k: Setup, v: C.Validator) {
    C.CacheInv(v, k.max) && C.RepeatsAreFar(v.accepted, k.max) && C.InWindow(v.accepted, k.ttl)
  }

  lemma {:induction false} LogInvAlong(k: Setup, g: Gate, es: seq<Event>)
    requires LogInv(k, g.validator)
    ensures LogInv(k, Run(k, g, es).validator)
    decreases |es|
  {
    if es != [] {
      var n := |es| - 1;
      LogInvAlong(k, g, es[..n]);
      var b, e := Run(k, g, es[..n]), es[n];
      if e.Execute? {
        C.StepKeepsDistance(b.validator, k.ttl, k.max,
                            C.Attempt(b.key, e.capsule, b.sentinel.generation, T.ExecutionAllowed(b.sentinel), e.now));
      }
    }
  }

  /* The acceptance came from the capsule issued by `es[j]`, at the click `es[i]`. */
  ghost predicate Traced(es: seq<Event>, a: C.Acceptance, j: nat, i: nat) {
    && j < i < |es| && es[j].Issue? && es[j].nonce == a.nonce && es[j].now == a.issuedAt
    && es[i].Execute? && es[i].now == a.at
  }

  ghost predicate ClicksInOrder(es: seq<Event>) {
    forall i, j :: 0 <= i < j < |es| && es[i].Execute? && es[j].Execute? ==> es[i].now <= es[j].now
  }

  ghost predicate HasOrigin(es: seq<Event>, a: C.Acceptance, i: nat) {
    exists j: nat, x: nat :: x < i && Traced(es, a, j, x)
  }

  ghost predicate LogTraced(k: Setup, g: Gate, es: seq<Event>, i: nat)
    requires i <= |es|
  {
    var log := At(k, g, es, i).validator.accepted;
    C.ClockOrdered(log) && forall m :: 0 <= m < |log| ==> HasOrigin(es, log[m], i)
  }

  lemma {:induction false} AcceptanceIsTraced(k: Setup, g: Gate, es: seq<Event>, n: nat)
    requires Unforged(k, g, es) && n < |es| && es[n].Execute? && CapsulePasses(k, At(k, g, es, n), es[n])
    ensures HasOrigin(es, C.Acceptance(es[n].capsule.payload.nonce, es[n].capsule.payload.issuedAt, es[n].now), n + 1)
  {
    var j: nat :| j < n && MintedAt(k, g, es, j, n);
    assert Traced(es, C.Acceptance(es[n].capsule.payload.nonce, es[n].capsule.payload.issuedAt, es[n].now), j, n);
  }

  /* What an event adds to the log of acceptances. */
  lemma {:induction false} LogAfter(k: Setup, g: Gate, e: Event)
    ensures Next(k, g, e).validator.accepted ==
            if e.Execute? && CapsulePasses(k, g, e)
            then g.validator.accepted + [C.Acceptance(e.capsule.payload.nonce, e.capsule.payload.issuedAt, e.now)]
            else g.validator.accepted
  {
  }

  lemma {:induction false} LogIsTraced(k: Setup, g: Gate, es: seq<Event>, i: nat)
    requires g.validator == C.NEW_VALIDATOR && Unforged(k, g, es) && ClicksInOrder(es) && i <= |es|
    ensures LogTraced(k, g, es, i)
    decreases i
  {
    if i > 0 {
      var n := i - 1;
      LogIsTraced(k, g, es, n);
      AtNext(k, g, es, n);
      LogAfter(k, At(k, g, es, n), es[n]);
      if es[n].Execute? && CapsulePasses(k, At(k, g, es, n), es[n]) {
        AcceptanceIsTraced(k, g, es, n);
      }
      TracedOneMore(es, At(k, g, es, n).validator.accepted, At(k, g, es, i).validator.accepted, n);
    }
  }

  lemma {:induction false} TracedOneMore(es: seq<Event>, log: seq<C.Acceptance>, longer: seq<C.Acceptance>, n: nat)
    requires n < |es| && ClicksInOrder(es) && C.ClockOrdered(log)
    requires forall m :: 0 <= m < |log| ==> HasOrigin(es, log[m], n)
    requires longer != log ==> es[n].Execute? && longer != [] && longer[..|longer| - 1] == log
                                && HasOrigin(es, longer[|longer| - 1], n + 1) && longer[|longer| - 1].at == es[n].now
    ensures C.ClockOrdered(longer) && forall m :: 0 <= m < |longer| ==> HasOrigin(es, longer[m], n + 1)
  {
    forall m | 0 <= m < |log|
      ensures HasOrigin(es, log[m], n + 1)
      ensures es[n].Execute? ==> log[m].at <= es[n].now
    {
      var j: nat, x: nat :| x < n && Traced(es, log[m], j, x);
    }
    assert longer != log ==> forall m :: 0 <= m < |log| ==> longer[m] == log[m];
  }

  lemma {:induction false} NonceNamesIssue(es: seq<Event>, a: C.Acceptance, b: C.Acceptance, n: nat)
    requires FreshNonces(es) && HasOrigin(es, a, n) && HasOrigin(es, b, n) && a.nonce == b.nonce
    ensures a.issuedAt == b.issuedAt
  {
    var ja: nat, xa: nat :| xa < n && Traced(es, a, ja, xa);
    var jb: nat, xb: nat :| xb < n && Traced(es, b, jb, xb);
    if ja < jb || jb < ja {
      assert false;
    }
  }

  lemma {:induction false} LogDoesNotRepeat(k: Setup, g: Gate, es: seq<Event>)
    requires g.validator == C.NEW_VALIDATOR && Unforged(k, g, es) && FreshNonces(es) && ClicksInOrder(es)
    requires C.SlowEnough(Run(k, g, es).validator.accepted, k.ttl, k.max)
    ensures var log := Run(k, g, es).validator.accepted;
            forall a, b :: 0 <= a < b < |log| ==> log[a].nonce != log[b].nonce
  {
    var log := Run(k, g, es).validator.accepted;
    assert es[..|es|] == es;
    assert C.SetOf([]) == {};
    LogInvAlong(k, g, es);
    LogIsTraced(k, g, es, |es|);
    forall a, b | 0 <= a < b < |log| && log[a].nonce == log[b].nonce
      ensures log[a].issuedAt == log[b].issuedAt
    {
      NonceNamesIssue(es, log[a], log[b], |es|);
    }
    C.SlowLogsDoNotRepeat(log, k.ttl, k.max);
  }

  /**
   With unique nonces, clicks in clock order, and never max + 2 acceptances within the life of a
   capsule, two approved clicks never carry the same capsule.
   */
  lemma {:induction false} NoCapsuleExecutesTwice(k: Setup, sentinel: T.Sentinel, key: nat, es: seq<Event>, i: nat,
                                                  j: nat)
    requires Unforged(k, Start(sentinel, key), es) && FreshNonces(es) && ClicksInOrder(es)
    requires C.SlowEnough(Run(k, Start(sentinel, key), es).validator.accepted, k.ttl, k.max)
    requires i < j < |es| && Approved(k, Start(sentinel, key), es, i) && Approved(k, Start(sentinel, key), es, j)
    ensures es[i].capsule.payload.nonce != es[j].capsule.payload.nonce && es[i].capsule != es[j].capsule
  {
    var g := Start(sentinel, key);
    LogDoesNotRepeat(k, g, es);
    AcceptedAt(k, g, es, i);
    AcceptedAt(k, g, es, j);
    LogGrows(k, g, es, i + 1, j);
  }

  /* Logs only grow, so what was accepted stays where it is. */
  lemma {:induction false} LogGrows(k: Setup, g: Gate, es: seq<Event>, i: nat, j: nat)
    requires i <= j <= |es|
    ensures At(k, g, es, i).validator.accepted <= At(k, g, es, j).validator.accepted
    decreases j
  {
    if i < j {
      LogGrows(k, g, es, i, j - 1);
      AtNext(k, g, es, j - 1);
    }
  }

  lemma {:induction false} AcceptedAt(k: Setup, g: Gate, es: seq<Event>, i: nat)
    requires i < |es| && Approved(k, g, es, i)
    ensures var n, log := |At(k, g, es, i).validator.accepted|, Run(k, g, es).validator.accepted;
            n < |log| && log[n].nonce == es[i].capsule.payload.nonce
    ensures |At(k, g, es, i + 1).validator.accepted| == |At(k, g, es, i).validator.accepted| + 1
  {
    AtNext(k, g, es, i);
    assert es[..|es|] == es;
    LogGrows(k, g, es, i + 1, |es|);
  }
}
