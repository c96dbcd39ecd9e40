/**
 Signed, single-use execution permits: the forge that mints them and the validator that checks
 signature, replay, age, tilt generation and the hard gate, in that order.

 A signature is symbolic: a key together with everything it signs. Keys and nonces come from the
 operating system in the source; here they are parameters. `accepted` records history.
 */
module IntentCapsules {
  /* What the signed message is built from. */
  datatype Payload = Payload(signal: string, symbol: string, side: string, tiltGeneration: nat, nonce: string,
                             issuedAt: real)

  datatype Signature = Signature(key: nat, payload: Payload)

  datatype Capsule = Capsule(payload: Payload, signature: Signature)

  datatype Rejection = HmacInvalid | NonceReplay | TtlExpired | ClockManipulation | TiltGenMismatch
                     | TiltLocked | IntentInvalid

  datatype Verdict = Allowed | Rejected(reason: Rejection)

  /** Minting a capsule and checking its signature are inverse under one key and never match under another. */
  function Mint(key: nat, p: Payload): Capsule {
    Capsule(p, Signature(key, p))
  }

  predicate VerifySignature(key: nat, c: Capsule) {
    c.signature == Signature(key, c.payload)
  }

  lemma {:induction false} SignedUnder(key: nat, other: nat, c: Capsule)
    ensures VerifySignature(key, c) <==> c == Mint(key, c.payload)
    ensures VerifySignature(other, Mint(key, c.payload)) <==> other == key
  {
  }

  const CLOCK_SLACK: real := 0.1

  /* One acceptance: which nonce, issued when, accepted when. */
  datatype Acceptance = Acceptance(nonce: string, issuedAt: real, at: real)

  datatype Validator = Validator(used: set<string>, order: seq<string>, rejections: map<Rejection, nat>, total: nat,
                                 accepted: seq<Acceptance>)

  const NEW_VALIDATOR := Validator({}, [], map[], 0, [])

  /** The first check that fails, if any. */
  function Check(v: Validator, key: nat, ttl: real, c: Capsule, generation: nat, allowed: bool, now: real): Verdict {
    if !VerifySignature(key, c) then Rejected(HmacInvalid)
    else if c.payload.nonce in v.used then Rejected(NonceReplay)
    else if now - c.payload.issuedAt > ttl then Rejected(TtlExpired)
    else if now - c.payload.issuedAt < -CLOCK_SLACK then Rejected(ClockManipulation)
    else if c.payload.tiltGeneration != generation then Rejected(TiltGenMismatch)
    else if !allowed then Rejected(TiltLocked)
    else Allowed
  }

  function Counted(v: Validator, r: Rejection): Validator {
    v.(total := v.total + 1, rejections := v.rejections[r := (if r in v.rejections then v.rejections[r] else 0) + 1])
  }

  /** The nonce cache after evicting from the front down to `max`. */
  function Trim(order: seq<string>, max: nat): seq<string> {
    if |order| > max then order[|order| - max..] else order
  }

  function SetOf(order: seq<string>): set<string> {
    set i | 0 <= i < |order| :: order[i]
  }

  function Consumed(v: Validator, max: nat, p: Payload, now: real): Validator {
    var order := Trim(v.order + [p.nonce], max);
    v.(order := order, used := SetOf(order), accepted := v.accepted + [Acceptance(p.nonce, p.issuedAt, now)])
  }

  function Validated(v: Validator, key: nat, ttl: real, max: nat, c: Capsule, generation: nat, allowed: bool, now: real)
    : (Validator, Verdict)
  {
    var verdict := Check(v, key, ttl, c, generation, allowed, now);
    (if verdict == Allowed then Consumed(v, max, c.payload, now) else Counted(v, verdict.reason), verdict)
  }

  ghost predicate NoRepeats(s: seq<string>) {
    forall i, j :: 0 <= i < j < |s| ==> s[i] != s[j]
  }

  /* The cache is the set of a duplicate-free queue within its bound: the nonces accepted last. */
  ghost predicate CacheInv(v: Validator, max: nat) {
    && NoRepeats(v.order) && |v.order| <= max && v.used == SetOf(v.order)
    && |v.order| <= |v.accepted| && (|v.accepted| <= max ==> |v.order| == |v.accepted|)
    && (|v.accepted| > max ==> |v.order| == max)
    && forall k :: 0 <= k < |v.order| ==> v.order[k] == v.accepted[|v.accepted| - |v.order| + k].nonce
  }

  lemma {:induction false} SetOfMembers(order: seq<string>)
    ensures forall n :: n in SetOf(order) <==> n in order
  {
  }

  lemma {:induction false} SetOfPush(order: seq<string>, nonce: string)
    ensures SetOf(order + [nonce]) == SetOf(order) + {nonce}
  {
    var longer := order + [nonce];
    forall n
      ensures n in SetOf(longer) <==> n in SetOf(order) + {nonce}
    {
      SetOfMembers(order);
      SetOfMembers(longer);
      assert n in longer <==> n in order || n == nonce;
    }
  }

  lemma {:induction false} ConsumeKeepsCache(v: Validator, max: nat, p: Payload, now: real)
    requires CacheInv(v, max) && p.nonce !in v.used
    ensures CacheInv(Consumed(v, max, p, now), max)
  {
    SetOfMembers(v.order);
    var longer := v.order + [p.nonce];
    assert NoRepeats(longer);
    var r := Consumed(v, max, p, now);
    forall k | 0 <= k < |r.order|
      ensures r.order[k] == r.accepted[|r.accepted| - |r.order| + k].nonce
    {
      var d := |longer| - |r.order|;
      assert r.order[k] == longer[d + k];
      if d + k < |v.order| {
        assert longer[d + k] == v.order[d + k];
      }
    }
  }

  lemma {:induction false} ValidateKeepsCache(v: Validator, key: nat, ttl: real, max: nat, c: Capsule, generation: nat,
                                              allowed: bool, now: real)
    requires CacheInv(v, max)
    ensures CacheInv(Validated(v, key, ttl, max, c, generation, allowed, now).0, max)
  {
    if Check(v, key, ttl, c, generation, allowed, now) == Allowed {
      ConsumeKeepsCache(v, max, c.payload, now);
    }
  }

  class CapsuleForge {
    var key: nat

    constructor (key: nat)
      ensures this.key == key
    {
      this.key := key;
    }

    method Issue(signal: string, symbol: string, side: string, generation: nat, nonce: string, now: real)
        returns (c: Capsule)
      ensures c == Mint(key, Payload(signal, symbol, side, generation, nonce, now))
    {
      var p := Payload(signal, symbol, side, generation, nonce, now);
      c := Capsule(p, Signature(key, p));
    }

    method RotateKey(newKey: nat)
      modifies this
      ensures key == newKey
    {
      key := newKey;
    }
  }

  class CapsuleValidator {
    const forge: CapsuleForge
    const ttl: real
    const max: nat
    var used: set<string>
    var order: seq<string>
    var rejections: map<Rejection, nat>
    var total: nat
    ghost var accepted: seq<Acceptance>

    ghost function State(): Validator
      reads this
    {
      Validator(used, order, rejections, total, accepted)
    }

    ghost predicate Valid()
      reads this
    {
      CacheInv(State(), max)
    }

    constructor (forge: CapsuleForge, ttl: real, max: nat)
      ensures Valid() && State() == NEW_VALIDATOR
      ensures this.forge == forge && this.ttl == ttl && this.max == max
    {
      this.forge, this.ttl, this.max := forge, ttl, max;
      used, order, rejections, total, accepted := {}, [], map[], 0, [];
      new;
      assert SetOf([]) == {};
    }

    /** `validate`; the sentinel's generation and gate are passed in. */
    method Validate(c: Capsule, generation: nat, allowed: bool, now: real) returns (verdict: Verdict)
      requires Valid()
      modifies this
      ensures Valid()
      ensures (State(), verdict) == Validated(old(State()), forge.key, ttl, max, c, generation, allowed, now)
    {
      ValidateKeepsCache(State(), forge.key, ttl, max, c, generation, allowed, now);
      verdict := Judge(c, generation, allowed, now);
      if verdict.Rejected? {
        verdict := Reject(verdict.reason);
        return;
      }
      SizeOfSet(order);
      ConsumeNonce(c.payload.nonce);
      accepted := accepted + [Acceptance(c.payload.nonce, c.payload.issuedAt, now)];
    }

    /* The cascade of checks. */
    method Judge(c: Capsule, generation: nat, allowed: bool, now: real) returns (verdict: Verdict)
      ensures verdict == Check(State(), forge.key, ttl, c, generation, allowed, now)
    {
      if c.signature != Signature(forge.key, c.payload) {
        return Rejected(HmacInvalid);
      }
      if c.payload.nonce in used {
        return Rejected(NonceReplay);
      }
      var age := now - c.payload.issuedAt;
      if age > ttl {
        return Rejected(TtlExpired);
      }
      if age < -CLOCK_SLACK {
        return Rejected(ClockManipulation);
      }
      if c.payload.tiltGeneration != generation {
        return Rejected(TiltGenMismatch);
      }
      if !allowed {
        return Rejected(TiltLocked);
      }
      return Allowed;
    }

    method Reject(r: Rejection) returns (verdict: Verdict)
      modifies this`total, this`rejections
      ensures State() == Counted(old(State()), r) && verdict == Rejected(r)
    {
      total := total + 1;
      rejections := rejections[r := (if r in rejections then rejections[r] else 0) + 1];
      return Rejected(r);
    }

    /** `_consume_nonce`: append, then evict from the front while the set is over its bound. */
    method ConsumeNonce(nonce: string)
      requires Tracks(used, order) && nonce !in used
      modifies this`used, this`order
      ensures order == Trim(old(order) + [nonce], max) && Tracks(used, order)
    {
      PushTracks(used, order, nonce);
      used := used + {nonce};
      order := order + [nonce];
      while |used| > max
        invariant Trim(order, max) == Trim(old(order) + [nonce], max) && Tracks(used, order)
        decreases |order|
      {
        var oldest := order[0];
        PopTracks(used, order, max);
        order := order[1..];
        used := used - {oldest};
      }
    }
  }

  /* The set and the queue hold the same nonces, each once. */
  ghost predicate Tracks(used: set<string>, order: seq<string>) {
    NoRepeats(order) && used == SetOf(order) && |used| == |order|
  }

  lemma {:induction false} PushTracks(used: set<string>, order: seq<string>, nonce: string)
    requires Tracks(used, order) && nonce !in used
    ensures Tracks(used + {nonce}, order + [nonce])
  {
    SetOfMembers(order);
    SetOfPush(order, nonce);
  }

  lemma {:induction false} PopTracks(used: set<string>, order: seq<string>, max: nat)
    requires Tracks(used, order) && |order| > max
    ensures Tracks(used - {order[0]}, order[1..]) && Trim(order[1..], max) == Trim(order, max)
  {
    var rest := order[1..];
    SetOfMembers(order);
    SetOfMembers(rest);
    assert order == [order[0]] + rest;
    forall i | 0 <= i < |rest|
      ensures rest[i] != order[0]
    {
      assert rest[i] == order[i + 1];
    }
    assert SetOf(rest) == SetOf(order) - {order[0]};
  }

  lemma {:induction false} SizeOfSet(order: seq<string>)
    requires NoRepeats(order)
    ensures |SetOf(order)| == |order|
    decreases |order|
  {
    if order != [] {
      var n := |order| - 1;
      SizeOfSet(order[..n]);
      assert SetOf(order) == SetOf(order[..n]) + {order[n]};
      SetOfMembers(order[..n]);
    }
  }

  /* ---- single use over runs ---- */

  /* One call of validate with everything it reads at that moment. */
  datatype Attempt = Attempt(key: nat, capsule: Capsule, generation: nat, allowed: bool, now: real)

  function Run(v: Validator, ttl: real, max: nat, calls: seq<Attempt>): Validator
    decreases |calls|
  {
    if calls == [] then v
    else
      var a := calls[0];
      Run(Validated(v, a.key, ttl, max, a.capsule, a.generation, a.allowed, a.now).0, ttl, max, calls[1..])
  }

  /* A nonce that comes back comes back only after it was evicted: at least `max` others in between. */
  ghost predicate RepeatsAreFar(log: seq<Acceptance>, max: nat) {
    forall i, j :: 0 <= i < j < |log| && log[i].nonce == log[j].nonce ==> j - i > max
  }

  ghost predicate InWindow(log: seq<Acceptance>, ttl: real) {
    forall i :: 0 <= i < |log| ==> -0.1 <= log[i].at - log[i].issuedAt <= ttl
  }

  lemma {:induction false} StepKeepsDistance(v: Validator, ttl: real, max: nat, a: Attempt)
    requires CacheInv(v, max) && RepeatsAreFar(v.accepted, max) && InWindow(v.accepted, ttl)
    ensures var r := Validated(v, a.key, ttl, max, a.capsule, a.generation, a.allowed, a.now).0;
            CacheInv(r, max) && RepeatsAreFar(r.accepted, max) && InWindow(r.accepted, ttl)
  {
    ValidateKeepsCache(v, a.key, ttl, max, a.capsule, a.generation, a.allowed, a.now);
    var r := Validated(v, a.key, ttl, max, a.capsule, a.generation, a.allowed, a.now).0;
    if Check(v, a.key, ttl, a.capsule, a.generation, a.allowed, a.now) == Allowed {
      SetOfMembers(v.order);
      var n := |v.accepted|;
      forall i | 0 <= i < n && n - i <= max
        ensures r.accepted[i].nonce != r.accepted[n].nonce
      {
        var k := i - (n - |v.order|);
        assert v.order[k] == r.accepted[i].nonce;
      }
    }
  }

  lemma {:induction false} RunKeepsDistance(v: Validator, ttl: real, max: nat, calls: seq<Attempt>)
    requires CacheInv(v, max) && RepeatsAreFar(v.accepted, max) && InWindow(v.accepted, ttl)
    ensures var r := Run(v, ttl, max, calls);
            CacheInv(r, max) && RepeatsAreFar(r.accepted, max) && InWindow(r.accepted, ttl)
    decreases |calls|
  {
    if calls != [] {
      StepKeepsDistance(v, ttl, max, calls[0]);
      var a := calls[0];
      var next := Validated(v, a.key, ttl, max, a.capsule, a.generation, a.allowed, a.now).0;
      RunKeepsDistance(next, ttl, max, calls[1..]);
    }
  }

  /* How many calls of a run are refused, for one reason or for any. */
  function Refused(v: Validator, ttl: real, max: nat, calls: seq<Attempt>, reason: Rejection): nat
    decreases |calls|
  {
    if calls == [] then 0
    else
      var a := calls[0];
      var (next, verdict) := Validated(v, a.key, ttl, max, a.capsule, a.generation, a.allowed, a.now);
      (if verdict == Rejected(reason) then 1 else 0) + Refused(next, ttl, max, calls[1..], reason)
  }

  function AllRefused(v: Validator, ttl: real, max: nat, calls: seq<Attempt>): nat
    decreases |calls|
  {
    if calls == [] then 0
    else
      var a := calls[0];
      var (next, verdict) := Validated(v, a.key, ttl, max, a.capsule, a.generation, a.allowed, a.now);
      (if verdict == Allowed then 0 else 1) + AllRefused(next, ttl, max, calls[1..])
  }

  function CountOf(v: Validator, reason: Rejection): nat {
    if reason in v.rejections then v.rejections[reason] else 0
  }

  /** The counters of a run grow by exactly the calls refused, each under its own reason. */
  lemma {:induction false} RejectionsAddUp(v: Validator, ttl: real, max: nat, calls: seq<Attempt>, reason: Rejection)
    ensures var r := Run(v, ttl, max, calls);
            && CountOf(r, reason) == CountOf(v, reason) + Refused(v, ttl, max, calls, reason)
            && r.total == v.total + AllRefused(v, ttl, max, calls)
            && |r.accepted| == |v.accepted| + |calls| - AllRefused(v, ttl, max, calls)
    decreases |calls|
  {
    if calls != [] {
      var a := calls[0];
      var next := Validated(v, a.key, ttl, max, a.capsule, a.generation, a.allowed, a.now).0;
      RejectionsAddUp(next, ttl, max, calls[1..], reason);
    }
  }

  /* The clock never goes back along the acceptances. */
  ghost predicate ClockOrdered(log: seq<Acceptance>) {
    forall i, j :: 0 <= i < j < |log| ==> log[i].at <= log[j].at
  }

  /* Any max + 1 acceptances in a row take longer than the life of a capsule. */
  ghost predicate SlowEnough(log: seq<Acceptance>, ttl: real, max: nat) {
    forall i :: 0 <= i && i + max + 1 < |log| ==> log[i + max + 1].at - log[i].at > ttl + CLOCK_SLACK
  }

  /* Nonces are unique to a capsule, so one nonce has one issue time. */
  ghost predicate NoncesNameCapsules(log: seq<Acceptance>) {
    forall i, j :: 0 <= i < j < |log| && log[i].nonce == log[j].nonce ==> log[i].issuedAt == log[j].issuedAt
  }

  lemma {:induction false} SlowLogsDoNotRepeat(log: seq<Acceptance>, ttl: real, max: nat)
    requires RepeatsAreFar(log, max) && InWindow(log, ttl)
    requires ClockOrdered(log) && SlowEnough(log, ttl, max) && NoncesNameCapsules(log)
    ensures forall i, j :: 0 <= i < j < |log| ==> log[i].nonce != log[j].nonce
  {
    forall i, j | 0 <= i < j < |log|
      ensures log[i].nonce != log[j].nonce
    {
      if j - i > max {
        var k := i + max + 1;
        assert log[i + max + 1].at - log[i].at > ttl + CLOCK_SLACK;
        assert log[k].at <= log[j].at;
        assert log[j].at - log[i].at > ttl + CLOCK_SLACK;
      }
    }
  }

  /**
   Single use: with unique nonces, a clock that does not go back, and never max + 2 acceptances within
   the life of a capsule, no capsule is accepted twice, whatever else is submitted.
   */
  lemma {:induction false} CapsulesAreSingleUse(ttl: real, max: nat, calls: seq<Attempt>)
    requires var log := Run(NEW_VALIDATOR, ttl, max, calls).accepted;
             ClockOrdered(log) && SlowEnough(log, ttl, max) && NoncesNameCapsules(log)
    ensures var log := Run(NEW_VALIDATOR, ttl, max, calls).accepted;
            forall i, j :: 0 <= i < j < |log| ==> log[i].nonce != log[j].nonce
  {
    assert SetOf([]) == {};
    RunKeepsDistance(NEW_VALIDATOR, ttl, max, calls);
    SlowLogsDoNotRepeat(Run(NEW_VALIDATOR, ttl, max, calls).accepted, ttl, max);
  }

  lemma {:induction false} RunSnoc(v: Validator, ttl: real, max: nat, calls: seq<Attempt>, a: Attempt)
    ensures Run(v, ttl, max, calls + [a])
         == Validated(Run(v, ttl, max, calls), a.key, ttl, max, a.capsule, a.generation, a.allowed, a.now).0
    decreases |calls|
  {
    if calls == [] {
      assert [] + [a] == [a] && [a][1..] == [];
    } else {
      var first := calls[0];
      var next := Validated(v, first.key, ttl, max, first.capsule, first.generation, first.allowed, first.now).0;
      RunSnoc(next, ttl, max, calls[1..], a);
      assert (calls + [a])[0] == first && (calls + [a])[1..] == calls[1..] + [a];
    }
  }

  /* The k-th of any number of different nonces. */
  function Nonce(k: nat): string {
    seq(k, i => 'a')
  }

  /* Its capsule, handed in at once. */
  function Submission(k: nat): Attempt {
    Attempt(0, Mint(0, Payload("s", "BTC", "BUY", 0, Nonce(k), 0.0)), 0, true, 0.0)
  }

  function Burst(n: nat): (calls: seq<Attempt>)
    ensures |calls| == n && forall k :: 0 <= k < n ==> calls[k] == Submission(k)
  {
    seq(n, k requires 0 <= k < n => Submission(k))
  }

  ghost predicate Accepts(log: seq<Acceptance>, n: nat) {
    |log| == n && forall k :: 0 <= k < n ==> log[k] == Acceptance(Nonce(k), 0.0, 0.0)
  }

  /* The k-th capsule is accepted whenever its nonce is not among the cached ones. */
  lemma {:induction false} SubmissionIsAccepted(v: Validator, ttl: real, max: nat, k: nat)
    requires ttl >= 0.0 && CacheInv(v, max)
    requires forall i :: 0 <= i < |v.accepted| && |v.accepted| - i <= max ==> v.accepted[i].nonce != Nonce(k)
    ensures var a := Submission(k);
            Validated(v, a.key, ttl, max, a.capsule, a.generation, a.allowed, a.now).0.accepted
            == v.accepted + [Acceptance(Nonce(k), 0.0, 0.0)]
  {
    SetOfMembers(v.order);
    forall j | 0 <= j < |v.order|
      ensures v.order[j] != Nonce(k)
    {
      assert v.order[j] == v.accepted[|v.accepted| - |v.order| + j].nonce;
    }
  }

  lemma {:induction false} BurstIsAccepted(ttl: real, max: nat, n: nat)
    requires ttl >= 0.0
    ensures var v := Run(NEW_VALIDATOR, ttl, max, Burst(n));
            CacheInv(v, max) && Accepts(v.accepted, n)
    decreases n
  {
    assert SetOf([]) == {};
    RunKeepsDistance(NEW_VALIDATOR, ttl, max, Burst(n));
    if n > 0 {
      BurstIsAccepted(ttl, max, n - 1);
      var v := Run(NEW_VALIDATOR, ttl, max, Burst(n - 1));
      assert forall i :: 0 <= i < n - 1 ==> |v.accepted[i].nonce| < |Nonce(n - 1)|;
      SubmissionIsAccepted(v, ttl, max, n - 1);
      RunSnoc(NEW_VALIDATOR, ttl, max, Burst(n - 1), Submission(n - 1));
      assert Burst(n) == Burst(n - 1) + [Submission(n - 1)];
    }
  }

  /**
   The rate condition is sharp for every size of the cache: max + 1 different capsules accepted at once let
   the first of them in again, max + 1 acceptances after its own.
   */
  lemma {:induction false} BurstReopensACapsule(ttl: real, max: nat) returns (calls: seq<Attempt>)
    requires ttl >= 0.0
    ensures var log := Run(NEW_VALIDATOR, ttl, max, calls).accepted;
            && |calls| == |log| == max + 2 && calls[0].capsule == calls[max + 1].capsule
            && (forall k :: 0 <= k < max + 2 ==> log[k].nonce == calls[k].capsule.payload.nonce)
            && (forall i, j :: 0 <= i < j <= max ==> log[i].nonce != log[j].nonce)
            && ClockOrdered(log) && NoncesNameCapsules(log)
  {
    calls := Burst(max + 1) + [Submission(0)];
    BurstIsAccepted(ttl, max, max + 1);
    var v := Run(NEW_VALIDATOR, ttl, max, Burst(max + 1));
    assert forall i :: 0 < i < max + 1 ==> |v.accepted[i].nonce| > |Nonce(0)|;
    SubmissionIsAccepted(v, ttl, max, 0);
    RunSnoc(NEW_VALIDATOR, ttl, max, Burst(max + 1), Submission(0));
    assert forall i, j :: 0 <= i < j <= max ==> |v.accepted[i].nonce| < |v.accepted[j].nonce|;
  }
}
