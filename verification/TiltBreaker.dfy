/**
 The operator tilt breaker: reaction-time drift, click spam and error streaks are folded into a score
 that drives a state machine with a cooldown lock. Floats are reals, the clock is a parameter, and the
 display rounding of the metrics is not part of the model.

 The three trackers are values held by the sentinel; `Sentinel` is the whole state as a value, and the
 class performs the same steps on its fields.
 */
module TiltBreaker {
  import opened Reals

  datatype TiltState = Clear | Elevated | Locked | Cooldown | Blind

  /* ---- reaction times ---- */

  const REACTION_CAPACITY: nat := 20
  const REACTION_ALPHA: real := 0.15
  const REACTION_SAMPLES: nat := 5

  datatype Reactions = Reactions(last: real, count: nat, ewma: real)

  const NO_REACTIONS := Reactions(0.0, 0, 0.0)

  function RecordReaction(r: Reactions, ms: real): Reactions {
    if !(0.0 < ms < 30_000.0) then r
    else
      Reactions(ms, if r.count < REACTION_CAPACITY then r.count + 1 else REACTION_CAPACITY,
                if r.ewma == 0.0 then ms else REACTION_ALPHA * ms + (1.0 - REACTION_ALPHA) * r.ewma)
  }

  function Drift(r: Reactions): real {
    if r.count < REACTION_SAMPLES || r.ewma <= 0.0 then 0.0 else Abs(r.last - r.ewma) / r.ewma
  }

  /* ---- clicks ---- */

  const MAX_TOKENS: real := 5.0
  const REFILL_RATE: real := 1.0
  const BURST_CAPACITY: nat := 10

  /* `burst` holds the newest click times, newest last, at most BURST_CAPACITY of them. */
  datatype Clicks = Clicks(tokens: real, lastRefill: real, burst: seq<real>, rapidCount: nat, windowStart: real)

  const NO_CLICKS := Clicks(MAX_TOKENS, 0.0, [], 0, 0.0)

  function RecordClick(c: Clicks, now: real): Clicks {
    var refill := if c.lastRefill == 0.0 then now else c.lastRefill;
    var start := if c.windowStart == 0.0 then now else c.windowStart;
    var tokens := Min(MAX_TOKENS, c.tokens + Max(0.0, now - refill) * REFILL_RATE);
    var pushed := c.burst + [now];
    Clicks(Max(0.0, tokens - 1.0), now,
           if |pushed| > BURST_CAPACITY then pushed[1..] else pushed,
           (if now - start > 10.0 then 0 else c.rapidCount) + 1,
           if now - start > 10.0 then now else start)
  }

  function RecordClicks(c: Clicks, n: nat, now: real): Clicks
    decreases n
  {
    if n == 0 then c else RecordClicks(RecordClick(c, now), n - 1, now)
  }

  /* Clicks of the last half second, counted back from the newest until the first older one. */
  function BurstDensity(burst: seq<real>, now: real): nat {
    if burst == [] || now - burst[|burst| - 1] > 0.5 then 0
    else 1 + BurstDensity(burst[..|burst| - 1], now)
  }

  function SpamIntensity(c: Clicks, now: real): real {
    var depletion := 1.0 - c.tokens / MAX_TOKENS;
    var burst := Max(0.0, BurstDensity(c.burst, now) as real - 2.0) / 3.0;
    var rapid := Max(0.0, c.rapidCount as real / Max(0.1, now - c.windowStart) - 0.5);
    depletion * 2.0 + burst * 3.0 + rapid
  }

  /* ---- errors ---- */

  /** Bad decisions add one each; good ones then take two each, down to zero. */
  function Streak(streak: nat, bad: int, good: int): nat {
    var s := if bad > 0 then streak + bad else streak;
    if good <= 0 then s else if s >= 2 * good then s - 2 * good else 0
  }

  /* ---- the sentinel ---- */

  const THRESHOLD_ELEVATED: real := 0.4
  const THRESHOLD_CRITICAL: real := 0.7
  const THRESHOLD_CLEAR: real := 0.35

  datatype Settings = Settings(cooldown: real, heartbeatTimeout: real, wReaction: real, wErrors: real, wSpam: real)

  datatype Sentinel = Sentinel(state: TiltState, generation: nat, lockedUntil: real, lastHeartbeat: real,
                               reactions: Reactions, clicks: Clicks, streak: nat)

  /* The score of the three trackers together. */
  function Weigh(k: Settings, drift: real, streak: nat, spam: real): real {
    Min(1.0, Max(0.0, k.wReaction * Min(drift / 2.0, 1.0)
                    + k.wErrors * Min(streak as real / 4.0, 1.0)
                    + k.wSpam * Min(spam / 5.0, 1.0)))
  }

  function Composite(k: Settings, s: Sentinel, now: real): real {
    Weigh(k, Drift(s.reactions), s.streak, SpamIntensity(s.clicks, now))
  }

  predicate Expired(s: Sentinel, now: real) {
    (s.state == Locked || s.state == Cooldown) && now >= s.lockedUntil
  }

  /** Phase 1 of `_evaluate`: a lock becomes a cooldown, and a cooldown that is over clears everything. */
  function Unlocked(s: Sentinel, now: real): Sentinel {
    if Expired(s, now) then
      s.(state := Clear, lockedUntil := 0.0, reactions := NO_REACTIONS, clicks := NO_CLICKS, streak := 0)
    else if s.state == Locked then s.(state := Cooldown)
    else s
  }

  /** Phases 2 and 3: score, then transitions from CLEAR or ELEVATED only. */
  function Scored(k: Settings, s: Sentinel, now: real): Sentinel {
    var c := Composite(k, s, now);
    if s.state != Clear && s.state != Elevated then s
    else if c >= THRESHOLD_CRITICAL then s.(state := Locked, lockedUntil := now + k.cooldown)
    else if c >= THRESHOLD_ELEVATED then s.(state := Elevated)
    else if c < THRESHOLD_CLEAR then s.(state := Clear)
    else s
  }

  datatype Heartbeat = Heartbeat(reactionMs: real, clickCount: int, errors: int, successes: int)

  function Clamped(clicks: int): nat {
    if clicks < 0 then 0 else if clicks > 1000 then 1000 else clicks
  }

  function Fed(s: Sentinel, h: Heartbeat, now: real): Sentinel {
    s.(lastHeartbeat := now,
       reactions := if h.reactionMs > 0.0 then RecordReaction(s.reactions, h.reactionMs) else s.reactions,
       clicks := RecordClicks(s.clicks, Clamped(h.clickCount), now),
       streak := Streak(s.streak, h.errors, h.successes))
  }

  datatype Event =
    | Beat(heartbeat: Heartbeat, now: real)
    | Check(now: real)
    | ForceUnlock

  function Next(k: Settings, s: Sentinel, e: Event): Sentinel {
    match e
    case Beat(h, now) =>
      var scored := Scored(k, Unlocked(Fed(s, h, now), now), now);
      scored.(generation := s.generation + 1)
    case Check(now) =>
      if now - s.lastHeartbeat > k.heartbeatTimeout && s.state != Blind
      then s.(state := Blind, generation := s.generation + 1)
      else s
    case ForceUnlock =>
      s.(state := Clear, lockedUntil := 0.0, generation := s.generation + 1,
         reactions := NO_REACTIONS, clicks := NO_CLICKS, streak := 0)
  }

  predicate ExecutionAllowed(s: Sentinel) {
    s.state == Clear || s.state == Elevated
  }

  class CognitiveSentinel {
    const settings: Settings
    var state: TiltState
    var generation: nat
    var lockedUntil: real
    var lastHeartbeat: real
    var reactions: Reactions
    var clicks: Clicks
    var streak: nat

    function State(): Sentinel
      reads this
    {
      Sentinel(state, generation, lockedUntil, lastHeartbeat, reactions, clicks, streak)
    }

    constructor (settings: Settings, now: real)
      ensures this.settings == settings
      ensures State() == Sentinel(Clear, 0, 0.0, now, NO_REACTIONS, NO_CLICKS, 0)
    {
      this.settings := settings;
      state, generation, lockedUntil, lastHeartbeat := Clear, 0, 0.0, now;
      reactions, clicks, streak := NO_REACTIONS, NO_CLICKS, 0;
    }

    method IngestHeartbeat(h: Heartbeat, now: real)
      modifies this
      ensures State() == Next(settings, old(State()), Beat(h, now))
    {
      lastHeartbeat := now;
      if h.reactionMs > 0.0 {
        reactions := RecordReaction(reactions, h.reactionMs);
      }
      RecordAll(Clamped(h.clickCount), h.errors, h.successes, now);
      assert State() == Fed(old(State()), h, now);
      Evaluate(now);
    }

    /* The three loops of a heartbeat. */
    method RecordAll(clickCount: nat, errors: int, successes: int, now: real)
      modifies this`clicks, this`streak
      ensures clicks == RecordClicks(old(clicks), clickCount, now)
      ensures streak == Streak(old(streak), errors, successes)
    {
      var i := 0;
      while i < clickCount
        invariant i <= clickCount
        invariant RecordClicks(clicks, clickCount - i, now) == RecordClicks(old(clicks), clickCount, now)
        invariant streak == old(streak)
      {
        clicks := RecordClick(clicks, now);
        i := i + 1;
      }
      var j := 0;
      while j < errors
        invariant clicks == RecordClicks(old(clicks), clickCount, now)
        invariant 0 <= j && (errors >= 0 ==> j <= errors) && (errors < 0 ==> j == 0)
        invariant streak == old(streak) + j
      {
        streak := streak + 1;
        j := j + 1;
      }
      ghost var peak := streak;
      var k := 0;
      while k < successes
        invariant clicks == RecordClicks(old(clicks), clickCount, now)
        invariant 0 <= k && (successes >= 0 ==> k <= successes) && (successes < 0 ==> k == 0)
        invariant streak == if peak >= 2 * k then peak - 2 * k else 0
      {
        streak := if streak >= 2 then streak - 2 else 0;
        k := k + 1;
      }
    }

    method Evaluate(now: real)
      modifies this
      ensures State() == Scored(settings, Unlocked(old(State()), now), now).(generation := old(generation) + 1)
    {
      if state == Locked {
        state := Cooldown;
      }
      if state == Cooldown {
        if now >= lockedUntil {
          state, lockedUntil := Clear, 0.0;
          reactions, clicks, streak := NO_REACTIONS, NO_CLICKS, 0;
        }
      }
      assert State() == Unlocked(old(State()), now);
      var composite := Composite(settings, State(), now);
      if state == Clear || state == Elevated {
        if composite >= THRESHOLD_CRITICAL {
          state, lockedUntil := Locked, now + settings.cooldown;
        } else if composite >= THRESHOLD_ELEVATED {
          state := Elevated;
        } else if composite < THRESHOLD_CLEAR {
          state := Clear;
        }
      }
      generation := generation + 1;
    }

    method CheckBlind(now: real) returns (blind: bool)
      modifies this
      ensures State() == Next(settings, old(State()), Check(now))
      ensures blind <==> now - lastHeartbeat > settings.heartbeatTimeout
    {
      if now - lastHeartbeat > settings.heartbeatTimeout {
        if state != Blind {
          state, generation := Blind, generation + 1;
        }
        return true;
      }
      return false;
    }

    method Unlock()
      modifies this
      ensures State() == Next(settings, old(State()), ForceUnlock)
    {
      state, lockedUntil, generation := Clear, 0.0, generation + 1;
      reactions, clicks, streak := NO_REACTIONS, NO_CLICKS, 0;
    }
  }

  /* ---- runs ---- */

  function Run(k: Settings, s: Sentinel, es: seq<Event>): Sentinel
    decreases |es|
  {
    if es == [] then s else Run(k, Next(k, s, es[0]), es[1..])
  }

  lemma {:induction false} GenerationGrows(k: Settings, s: Sentinel, es: seq<Event>)
    ensures Run(k, s, es).generation >= s.generation
    decreases |es|
  {
    if es != [] {
      GenerationGrows(k, Next(k, s, es[0]), es[1..]);
    }
  }

  /** Equal generations at two points of a run mean nothing changed in between, in particular not the state. */
  lemma {:induction false} EqualGenerationsMeanEqualStates(k: Settings, s: Sentinel, es: seq<Event>)
    requires Run(k, s, es).generation == s.generation
    ensures Run(k, s, es) == s
    decreases |es|
  {
    if es != [] {
      GenerationGrows(k, Next(k, s, es[0]), es[1..]);
      EqualGenerationsMeanEqualStates(k, Next(k, s, es[0]), es[1..]);
    }
  }

  /** After a reset the score is zero at any time. */
  lemma {:induction false} FreshScoreIsZero(k: Settings, s: Sentinel, now: real)
    requires s.reactions == NO_REACTIONS && s.clicks == NO_CLICKS && s.streak == 0
    ensures Composite(k, s, now) == 0.0
  {
    assert SpamIntensity(NO_CLICKS, now) == 0.0 by {
      assert 0 as real / Max(0.1, now - 0.0) == 0.0;
    }
  }

  /* Locked at time `t`, or on the way out of that lock without having left it. */
  ghost predicate Shut(s: Sentinel, until: real) {
    ((s.state == Locked || s.state == Cooldown) && s.lockedUntil == until) || s.state == Blind
  }

  /* The only ways out: an administrator, or a heartbeat once the cooldown is over. */
  ghost predicate Opens(e: Event, until: real) {
    e.ForceUnlock? || (e.Beat? && e.now >= until)
  }

  lemma {:induction false} StaysShut(k: Settings, s: Sentinel, e: Event, until: real)
    requires Shut(s, until) && !Opens(e, until)
    ensures Shut(Next(k, s, e), until)
  {
  }

  lemma {:induction false} NothingOpensEarly(k: Settings, s: Sentinel, es: seq<Event>, until: real)
    requires Shut(s, until) && forall i :: 0 <= i < |es| ==> !Opens(es[i], until)
    ensures Shut(Run(k, s, es), until) && !ExecutionAllowed(Run(k, s, es))
    decreases |es|
  {
    if es != [] {
      StaysShut(k, s, es[0], until);
      NothingOpensEarly(k, Next(k, s, es[0]), es[1..], until);
    }
  }

  /**
   After a lock at time `t`, execution is allowed again only after a forced unlock or a heartbeat at
   `t + cooldown` or later.
   */
  lemma {:induction false} LockHolds(k: Settings, s: Sentinel, h: Heartbeat, t: real, es: seq<Event>)
    requires ExecutionAllowed(s) && Next(k, s, Beat(h, t)).state == Locked
    requires ExecutionAllowed(Run(k, Next(k, s, Beat(h, t)), es))
    ensures exists i :: 0 <= i < |es| && Opens(es[i], t + k.cooldown)
  {
    if forall i :: 0 <= i < |es| ==> !Opens(es[i], t + k.cooldown) {
      NothingOpensEarly(k, Next(k, s, Beat(h, t)), es, t + k.cooldown);
    }
  }

  /** A heartbeat that ends a lock lands in CLEAR with a zero score, whatever it carried. */
  lemma {:induction false} UnlockLandsInClear(k: Settings, s: Sentinel, h: Heartbeat, now: real)
    requires (s.state == Locked || s.state == Cooldown) && ExecutionAllowed(Next(k, s, Beat(h, now)))
    ensures now >= s.lockedUntil
    ensures Next(k, s, Beat(h, now)).state == Clear && Composite(k, Next(k, s, Beat(h, now)), now) == 0.0
  {
    if Expired(Fed(s, h, now), now) {
      FreshScoreIsZero(k, Unlocked(Fed(s, h, now), now), now);
      FreshScoreIsZero(k, Next(k, s, Beat(h, now)), now);
    }
  }

  /** A forced unlock always lands in CLEAR with a zero score, under a new generation. */
  lemma {:induction false} UnlockStartsFresh(k: Settings, s: Sentinel, now: real)
    ensures var r := Next(k, s, ForceUnlock);
            r.state == Clear && Composite(k, r, now) == 0.0 && r.generation > s.generation
  {
    FreshScoreIsZero(k, Next(k, s, ForceUnlock), now);
  }

  /* A check turns the state BLIND after a silence and does nothing else; checking again changes nothing. */
  lemma {:induction false} SilenceIsBlind(k: Settings, s: Sentinel, now: real, later: real)
    requires now <= later
    ensures var r := Next(k, s, Check(now));
            && (r.state == Blind <==> s.state == Blind || now - s.lastHeartbeat > k.heartbeatTimeout)
            && (r.state != s.state ==> !ExecutionAllowed(r) && r.generation > s.generation)
            && (r != s ==> Next(k, r, Check(later)) == r)
  {
  }

  /* The time of the last heartbeat of a history that starts after one at `t0`. */
  function LastBeat(t0: real, es: seq<Event>): real
    decreases |es|
  {
    if es == [] then t0
    else if es[|es| - 1].Beat? then es[|es| - 1].now
    else LastBeat(t0, es[..|es| - 1])
  }

  ghost predicate NoUnlockFrom(es: seq<Event>, i: nat) {
    forall j :: i <= j < |es| ==> !es[j].ForceUnlock?
  }

  /* The check `es[i]` comes after too long a silence, and nobody unlocked since. */
  ghost predicate BlindedAt(k: Settings, t0: real, es: seq<Event>, i: nat) {
    && i < |es| && es[i].Check? && es[i].now - LastBeat(t0, es[..i]) > k.heartbeatTimeout
    && NoUnlockFrom(es, i + 1)
  }

  lemma {:induction false} RunSnoc(k: Settings, s: Sentinel, es: seq<Event>, e: Event)
    ensures Run(k, s, es + [e]) == Next(k, Run(k, s, es), e)
    decreases |es|
  {
    if es == [] {
      assert [] + [e] == [e] && [e][1..] == [];
    } else {
      RunSnoc(k, Next(k, s, es[0]), es[1..], e);
      assert (es + [e])[1..] == es[1..] + [e];
    }
  }

  lemma {:induction false} LastBeatIsKept(k: Settings, s: Sentinel, es: seq<Event>)
    ensures Run(k, s, es).lastHeartbeat == LastBeat(s.lastHeartbeat, es)
    decreases |es|
  {
    if es != [] {
      var n := |es| - 1;
      LastBeatIsKept(k, s, es[..n]);
      RunSnoc(k, s, es[..n], es[n]);
      assert es == es[..n] + [es[n]];
    }
  }

  lemma {:induction false} BlindedOneMore(k: Settings, t0: real, es: seq<Event>, e: Event)
    ensures (exists i: nat :: BlindedAt(k, t0, es + [e], i))
            <==> ((e.Check? && e.now - LastBeat(t0, es) > k.heartbeatTimeout)
                  || (!e.ForceUnlock? && exists i: nat :: BlindedAt(k, t0, es, i)))
    ensures NoUnlockFrom(es + [e], 0) <==> NoUnlockFrom(es, 0) && !e.ForceUnlock?
  {
    var longer, n := es + [e], |es|;
    assert longer[n] == e && longer[..n] == es && forall j :: 0 <= j < n ==> longer[j] == es[j];
    forall i: nat | i < n
      ensures BlindedAt(k, t0, longer, i) <==> BlindedAt(k, t0, es, i) && !e.ForceUnlock?
    {
      assert longer[..i] == es[..i];
    }
    if e.Check? && e.now - LastBeat(t0, es) > k.heartbeatTimeout {
      assert BlindedAt(k, t0, longer, n);
    }
    if !e.ForceUnlock? && exists i: nat :: BlindedAt(k, t0, es, i) {
      var i: nat :| BlindedAt(k, t0, es, i);
      assert BlindedAt(k, t0, longer, i);
    }
  }

  /**
   After any history the sentinel is BLIND exactly when some check came later than the timeout after the last
   heartbeat before it, or it was BLIND to begin with, and nobody unlocked it since: no heartbeat helps.
   */
  lemma {:induction false} BlindExactly(k: Settings, s: Sentinel, es: seq<Event>)
    ensures Run(k, s, es).state == Blind
            <==> ((s.state == Blind && NoUnlockFrom(es, 0))
                  || exists i: nat :: BlindedAt(k, s.lastHeartbeat, es, i))
    decreases |es|
  {
    if es != [] {
      var n := |es| - 1;
      var earlier, e := es[..n], es[n];
      BlindExactly(k, s, earlier);
      RunSnoc(k, s, earlier, e);
      assert es == earlier + [e];
      BlindedOneMore(k, s.lastHeartbeat, earlier, e);
      LastBeatIsKept(k, s, earlier);
      if e.Check? {
        SilenceIsBlind(k, Run(k, s, earlier), e.now, e.now);
      }
    }
  }

  /** In particular no heartbeat and no check ever leaves BLIND; only a forced unlock does. */
  lemma {:induction false} OnlyForceLeavesBlind(k: Settings, s: Sentinel, es: seq<Event>)
    requires s.state == Blind && forall i :: 0 <= i < |es| ==> !es[i].ForceUnlock?
    ensures Run(k, s, es).state == Blind
  {
    BlindExactly(k, s, es);
  }
}
