/**
 When the tilt breaker locks: what the three trackers add to the score, and where a heartbeat lands for it.
 */
module TiltScores {
  import opened Reals
  import opened TiltBreaker

  /* ---- the state a heartbeat lands in ---- */

  /* The score a heartbeat is judged by: that of the trackers it has just fed. */
  function Judged(k: Settings, s: Sentinel, h: Heartbeat, now: real): real {
    Composite(k, Fed(s, h, now), now)
  }

  /**
   From CLEAR or ELEVATED a heartbeat lands in LOCKED exactly from 0.7 up, and then until now plus the
   cooldown; in ELEVATED from 0.4 up to 0.7; in CLEAR below 0.35; and stays where it was in between.
   */
  lemma {:induction false} HeartbeatLands(k: Settings, s: Sentinel, h: Heartbeat, now: real)
    requires s.state == Clear || s.state == Elevated
    ensures var c, r := Judged(k, s, h, now), Next(k, s, Beat(h, now));
            && (r.state == Locked <==> c >= 0.7)
            && (r.state == Elevated <==> 0.4 <= c < 0.7 || (s.state == Elevated && 0.35 <= c < 0.4))
            && (r.state == Clear <==> c < 0.35 || (s.state == Clear && c < 0.4))
            && (ExecutionAllowed(r) <==> c < 0.7)
            && r.lockedUntil == (if c >= 0.7 then now + k.cooldown else s.lockedUntil)
            && r.generation == s.generation + 1 && r.lastHeartbeat == now
  {
  }

  /** A locked sentinel cools down until its time, and is clear from then on; a blind one stays blind. */
  lemma {:induction false} ShutHeartbeatLands(k: Settings, s: Sentinel, h: Heartbeat, now: real)
    requires s.state == Locked || s.state == Cooldown || s.state == Blind
    ensures var r := Next(k, s, Beat(h, now));
            && (s.state == Blind ==> r.state == Blind)
            && (s.state != Blind && now < s.lockedUntil ==> r.state == Cooldown && r.lockedUntil == s.lockedUntil)
            && (s.state != Blind && now >= s.lockedUntil ==> r.state == Clear && r.lockedUntil == 0.0)
  {
    var fed := Fed(s, h, now);
    if s.state != Blind && now >= s.lockedUntil {
      FreshScoreIsZero(k, Unlocked(fed, now), now);
    }
  }

  function Rank(t: TiltState): int {
    match t
    case Clear => 0
    case Elevated => 1
    case _ => 2
  }

  /** Of two heartbeats the one with the higher score never allows more. */
  lemma {:induction false} HigherScoreAllowsNoMore(k: Settings, s: Sentinel, h: Heartbeat, g: Heartbeat, now: real)
    requires (s.state == Clear || s.state == Elevated) && Judged(k, s, h, now) <= Judged(k, s, g, now)
    ensures Rank(Next(k, s, Beat(h, now)).state) <= Rank(Next(k, s, Beat(g, now)).state)
    ensures ExecutionAllowed(Next(k, s, Beat(g, now))) ==> ExecutionAllowed(Next(k, s, Beat(h, now)))
  {
    HeartbeatLands(k, s, h, now);
    HeartbeatLands(k, s, g, now);
  }

  /* ---- the score ---- */

  ghost predicate Weighted(k: Settings) {
    k.wReaction >= 0.0 && k.wErrors >= 0.0 && k.wSpam >= 0.0
  }

  ghost predicate DefaultWeights(k: Settings) {
    k.wReaction == 0.4 && k.wErrors == 0.35 && k.wSpam == 0.25
  }

  /* What one tracker adds: its share of the weight, up to the value where it is as bad as it can get. */
  function Part(w: real, x: real, most: real): real
    requires most > 0.0
  {
    w * Min(x / most, 1.0)
  }

  lemma {:induction false} PartIsMonotone(w: real, x: real, y: real, most: real)
    requires w >= 0.0 && x <= y && most > 0.0
    ensures Part(w, x, most) <= Part(w, y, most)
  {
    assert x / most <= y / most;
  }

  function Unit(x: real): real { Min(1.0, Max(0.0, x)) }

  lemma {:induction false} UnitIsMonotone(a: real, b: real, c: real, a': real, b': real, c': real)
    requires a <= a' && b <= b' && c <= c'
    ensures 0.0 <= Unit(a + b + c) <= Unit(a' + b' + c') <= 1.0
  {
  }

  lemma {:induction false} ScoreIsSumOfParts(k: Settings, drift: real, streak: nat, spam: real)
    ensures Weigh(k, drift, streak, spam)
         == Unit(Part(k.wReaction, drift, 2.0) + Part(k.wErrors, streak as real, 4.0) + Part(k.wSpam, spam, 5.0))
  {
    assert Part(k.wReaction, drift, 2.0) == k.wReaction * Min(drift / 2.0, 1.0);
    assert Part(k.wErrors, streak as real, 4.0) == k.wErrors * Min(streak as real / 4.0, 1.0);
    assert Part(k.wSpam, spam, 5.0) == k.wSpam * Min(spam / 5.0, 1.0);
  }

  lemma {:induction false} WeighIsMonotone(k: Settings, drift: real, streak: nat, spam: real, drift': real,
                                           streak': nat, spam': real)
    requires Weighted(k) && drift <= drift' && streak <= streak' && spam <= spam'
    ensures 0.0 <= Weigh(k, drift, streak, spam) <= Weigh(k, drift', streak', spam') <= 1.0
  {
    ScoreIsSumOfParts(k, drift, streak, spam);
    ScoreIsSumOfParts(k, drift', streak', spam');
    PartIsMonotone(k.wReaction, drift, drift', 2.0);
    PartIsMonotone(k.wErrors, streak as real, streak' as real, 4.0);
    PartIsMonotone(k.wSpam, spam, spam', 5.0);
    UnitIsMonotone(Part(k.wReaction, drift, 2.0), Part(k.wErrors, streak as real, 4.0), Part(k.wSpam, spam, 5.0),
                   Part(k.wReaction, drift', 2.0), Part(k.wErrors, streak' as real, 4.0), Part(k.wSpam, spam', 5.0));
  }

  /** More drift, a longer streak or more spam never lowers the score, and it stays between zero and one. */
  lemma {:induction false} ScoreIsMonotone(k: Settings, s: Sentinel, t: Sentinel, now: real)
    requires Weighted(k) && Drift(s.reactions) <= Drift(t.reactions) && s.streak <= t.streak
    requires SpamIntensity(s.clicks, now) <= SpamIntensity(t.clicks, now)
    ensures 0.0 <= Composite(k, s, now) <= Composite(k, t, now) <= 1.0
  {
    WeighIsMonotone(k, Drift(s.reactions), s.streak, SpamIntensity(s.clicks, now),
                    Drift(t.reactions), t.streak, SpamIntensity(t.clicks, now));
  }

  /* The trackers up to the point where each is as bad as it can get. */
  function UpTo(x: real, most: real): real { if x < most then x else most }

  /** With the default weights the score is a fifth of the drift, 0.0875 an error and a twentieth of the spam. */
  lemma {:induction false} ScoreIs(k: Settings, s: Sentinel, now: real)
    requires DefaultWeights(k)
    ensures Drift(s.reactions) >= 0.0
    ensures SpamIntensity(s.clicks, now) >= 0.0 ==>
            Composite(k, s, now) == 0.2 * UpTo(Drift(s.reactions), 2.0) + 0.0875 * UpTo(s.streak as real, 4.0)
                                    + 0.05 * UpTo(SpamIntensity(s.clicks, now), 5.0)
  {
    DriftIsRelative(s.reactions);
  }

  /** So four errors on twice the drift always lock, and one tracker alone never does. */
  lemma {:induction false} TwoTrackersLock(k: Settings, s: Sentinel, h: Heartbeat, now: real)
    requires DefaultWeights(k) && (s.state == Clear || s.state == Elevated)
    ensures var fed := Fed(s, h, now);
            var drift, spam := Drift(fed.reactions), SpamIntensity(fed.clicks, now);
            spam >= 0.0 ==>
              && (fed.streak >= 4 && drift >= 2.0 ==> Next(k, s, Beat(h, now)).state == Locked)
              && (fed.streak == 0 && spam == 0.0 ==> Next(k, s, Beat(h, now)).state != Locked)
              && (fed.streak == 0 && drift == 0.0 ==> Next(k, s, Beat(h, now)).state != Locked)
              && (drift == 0.0 && spam == 0.0 ==> Next(k, s, Beat(h, now)).state != Locked)
  {
    HeartbeatLands(k, s, h, now);
    ScoreIs(k, Fed(s, h, now), now);
  }

  /* ---- the drift of reaction times ---- */

  /** With five samples the drift is the last reaction's distance from the baseline, relative to it; before, nothing. */
  lemma {:induction false} DriftIsRelative(r: Reactions)
    ensures Drift(r) >= 0.0
    ensures r.count < 5 ==> Drift(r) == 0.0
    ensures r.count >= 5 && r.ewma > 0.0 ==>
            Drift(r) * r.ewma == (if r.last >= r.ewma then r.last - r.ewma else r.ewma - r.last)
  {
    if r.count >= 5 && r.ewma > 0.0 {
      RatioOf(Abs(r.last - r.ewma), r.ewma);
    }
  }

  lemma {:induction false} RatioOf(x: real, y: real)
    requires x >= 0.0 && y > 0.0
    ensures x / y >= 0.0 && (x / y) * y == x
  {
  }

  function RecordReactions(r: Reactions, ms: real, n: nat): Reactions
    decreases n
  {
    if n == 0 then r else RecordReaction(RecordReactions(r, ms, n - 1), ms)
  }

  /** The baseline moves fifteen hundredths of the way to a new reaction, however far away it is. */
  lemma {:induction false} BaselineFollows(r: Reactions, ms: real)
    requires 0.0 < ms < 30_000.0 && r.ewma != 0.0
    ensures RecordReaction(r, ms).ewma - r.ewma == 0.15 * (ms - r.ewma) && RecordReaction(r, ms).last == ms
  {
  }

  /** An operator who always reacts alike never drifts, whatever the pace. */
  lemma {:induction false} SteadyReactionsNeverDrift(ms: real, n: nat)
    requires 0.0 < ms < 30_000.0 && n > 0
    ensures var r := RecordReactions(NO_REACTIONS, ms, n);
            r == Reactions(ms, if n < 20 then n else 20, ms) && Drift(r) == 0.0
    decreases n
  {
    if n == 1 {
      assert RecordReactions(NO_REACTIONS, ms, 0) == NO_REACTIONS;
    } else {
      SteadyReactionsNeverDrift(ms, n - 1);
    }
    RatioOf(0.0, ms);
  }

  /* ---- clicks ---- */

  ghost predicate InOrder(times: seq<real>) {
    forall i, j :: 0 <= i < j < |times| ==> times[i] <= times[j]
  }

  function Recent(times: seq<real>, now: real): nat {
    if times == [] then 0
    else Recent(times[..|times| - 1], now) + (if now - times[|times| - 1] <= 0.5 then 1 else 0)
  }

  lemma {:induction false} NoneRecent(times: seq<real>, now: real)
    requires forall i :: 0 <= i < |times| ==> now - times[i] > 0.5
    ensures Recent(times, now) == 0
    decreases |times|
  {
    if times != [] {
      NoneRecent(times[..|times| - 1], now);
    }
  }

  /** Counting back to the first older click counts all clicks of the last half second. */
  lemma {:induction false} BurstDensityCountsRecent(burst: seq<real>, now: real)
    requires InOrder(burst)
    ensures BurstDensity(burst, now) == Recent(burst, now)
    decreases |burst|
  {
    if burst != [] {
      if now - burst[|burst| - 1] > 0.5 {
        NoneRecent(burst, now);
      } else {
        BurstDensityCountsRecent(burst[..|burst| - 1], now);
      }
    }
  }

  /* That many clicks at one moment. */
  function Times(n: nat, now: real): (times: seq<real>)
    ensures |times| == n && forall i :: 0 <= i < n ==> times[i] == now
  {
    seq(n, _ => now)
  }

  /** The first clicks of an operator: a token each while there are five, the newest ten times, all of them counted. */
  lemma {:induction false} FirstClicks(n: nat, now: real)
    requires now != 0.0 && n > 0
    ensures RecordClicks(NO_CLICKS, n, now)
         == Clicks(if n < 5 then 5.0 - n as real else 0.0, now, Times(if n < 10 then n else 10, now), n, now)
    decreases n
  {
    ClickSnoc(NO_CLICKS, n - 1, now);
    if n == 1 {
      assert [] + [now] == Times(1, now);
    } else {
      FirstClicks(n - 1, now);
      var m := if n - 1 < 10 then n - 1 else 10;
      assert Times(m, now) + [now] == Times(m + 1, now);
      assert Times(11, now)[1..] == Times(10, now);
    }
  }

  lemma {:induction false} ClickSnoc(c: Clicks, n: nat, now: real)
    ensures RecordClicks(c, n + 1, now) == RecordClick(RecordClicks(c, n, now), now)
    decreases n
  {
    if n > 0 {
      ClickSnoc(RecordClick(c, now), n - 1, now);
    }
  }

  /** A lone first click adds two fifths for its token, and its rate over at least a tenth of a second. */
  lemma {:induction false} OneClickSpam(click: real, now: real)
    requires click != 0.0 && now >= click
    ensures var window := if now - click > 0.1 then now - click else 0.1;
            SpamIntensity(RecordClick(NO_CLICKS, click), now) == 0.4 + Max(0.0, 1.0 / window - 0.5)
  {
    var c := RecordClick(NO_CLICKS, click);
    assert c.burst == [click] && c.burst[..0] == [];
    assert BurstDensity(c.burst, now) <= 1 + BurstDensity([], now) == 1;
  }

  /** So it saturates the spam tracker exactly when it is scored within ten fifty-firsts of a second. */
  lemma {:induction false} OneClickSaturatesExactly(click: real, now: real)
    requires click != 0.0 && now >= click
    ensures SpamIntensity(RecordClick(NO_CLICKS, click), now) >= 5.0 <==> 5.1 * (now - click) <= 1.0
  {
    OneClickSpam(click, now);
    RateIsHigh(if now - click > 0.1 then now - click else 0.1);
  }

  lemma {:induction false} RateIsHigh(window: real)
    requires window > 0.0
    ensures 1.0 / window >= 5.1 <==> 5.1 * window <= 1.0
  {
    var rate := 1.0 / window;
    assert rate * window == 1.0;
    if rate >= 5.1 {
      assert rate * window >= 5.1 * window;
    } else {
      assert rate * window < 5.1 * window;
    }
  }
}
