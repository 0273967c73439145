/** Reconnecting a dropped connector with exponential back-off. */
module Reconnect {
  /** Durations are nanoseconds. */
  type Duration = int

  const SECOND := 1_000_000_000
  const MIN_STABLE := 30 * SECOND

  datatype Config = Config(initial: Duration, max: Duration, retries: nat, multiplier: nat)

  function Normalized(initial: Duration, max: Duration, retries: nat, multiplier: int): (c: Config)
    ensures initial <= 0 ==> c.initial == 1_000_000_000
    ensures max <= 0 ==> c.max == 5 * 60 * 1_000_000_000
    ensures multiplier <= 0 ==> c.multiplier == 2
    ensures initial > 0 ==> c.initial == initial
    ensures max > 0 ==> c.max == max
    ensures multiplier > 0 ==> c.multiplier == multiplier
    ensures c.retries == retries
  {
    Config(if initial <= 0 then SECOND else initial, if max <= 0 then 300 * SECOND else max, retries,
           if multiplier <= 0 then 2 else multiplier)
  }

  /** One life of the connection: how long it ran, and whether a new connector could be
      made afterwards. */
  datatype Drop = Drop(uptime: Duration, rebuilt: bool)

  datatype End = GaveUp | Cancelled

  function Power(base: nat, k: nat): nat {
    if k == 0 then 1 else base * Power(base, k - 1)
  }

  function Min(a: Duration, b: Duration): Duration {
    if b < a then b else a
  }

  /** The closed form of the wait after `k` drops in a row. */
  function BackoffDelay(k: nat, c: Config): Duration {
    Min(c.initial * Power(c.multiplier, k), c.max)
  }

  /** How many drops have followed the last stable connection, the drop that ended it included. */
  function Streak(drops: seq<Drop>): nat {
    if drops == [] then 0
    else if drops[|drops| - 1].uptime >= MIN_STABLE then 1
    else Streak(drops[..|drops| - 1]) + 1
  }

  function StreakAfter(drops: seq<Drop>, n: nat): (r: nat)
    requires n <= |drops|
    ensures 0 < n ==> 0 < r
  {
    Streak(drops[..n])
  }

  lemma StreakStep(drops: seq<Drop>, n: nat)
    requires n < |drops|
    ensures StreakAfter(drops, n + 1) == if drops[n].uptime >= MIN_STABLE then 1 else StreakAfter(drops, n) + 1
  {
    assert drops[..n + 1][..n] == drops[..n];
  }

  /** The loop reaches its limit with the `n`-th drop, and with none before. */
  ghost predicate Exhausts(drops: seq<Drop>, c: Config, n: nat) {
    && 0 < n <= |drops| && c.retries > 0 && StreakAfter(drops, n) >= c.retries
    && forall k | 0 < k < n :: StreakAfter(drops, k) < c.retries
  }

  lemma Monotone(base: nat, a: nat, b: nat)
    requires a <= b && base >= 1
    ensures base * a <= base * b && a <= base * a
  {
  }

  /** Multiplying and clamping the clamped wait is multiplying first and clamping once. */
  lemma BackoffStep(k: nat, c: Config)
    requires c.initial > 0 && c.multiplier >= 1
    ensures Min(BackoffDelay(k, c) * c.multiplier, c.max) == BackoffDelay(k + 1, c) || c.max <= 0
  {
    NextPower(c, k);
    if c.max > 0 {
      ClampOnce(c.initial * Power(c.multiplier, k), c.multiplier, c.max);
    }
  }

  lemma NextPower(c: Config, k: nat)
    requires c.initial > 0
    ensures c.initial * Power(c.multiplier, k + 1) == (c.initial * Power(c.multiplier, k)) * c.multiplier
    ensures c.initial * Power(c.multiplier, k) >= 0
  {
    Regroup(c.initial, c.multiplier, Power(c.multiplier, k));
  }

  lemma Regroup(a: nat, b: nat, c: nat)
    ensures a * (b * c) == (a * c) * b && a * c >= 0
  {
  }

  lemma ClampOnce(x: nat, m: nat, max: Duration)
    requires m >= 1 && max > 0
    ensures Min(Min(x, max) * m, max) == Min(x * m, max)
  {
    if x > max {
      Monotone(m, max, x);
    }
  }

  /** The wait that the loop makes after `k` earlier drops in a row: it clamps every wait
      but the first. */
  function WaitAfter(k: nat, c: Config): Duration {
    if k == 0 then c.initial else BackoffDelay(k, c)
  }

  lemma WaitStep(k: nat, c: Config)
    requires c.initial > 0 && c.max > 0 && c.multiplier >= 1
    ensures Min(WaitAfter(k, c) * c.multiplier, c.max) == WaitAfter(k + 1, c)
  {
    BackoffStep(k, c);
    if k == 0 {
      assert Power(c.multiplier, 1) == c.multiplier * Power(c.multiplier, 0);
    }
  }

  /** Every wait is as the loop's own rule says for its place in its series. */
  ghost predicate Waited(drops: seq<Drop>, c: Config, waits: seq<Duration>) {
    && |waits| <= |drops|
    && forall i | 0 <= i < |waits| :: waits[i] == WaitAfter(StreakAfter(drops, i + 1) - 1, c)
  }

  /** Every wait is the closed form for its place in its series, and within the maximum. */
  ghost predicate ClosedForm(drops: seq<Drop>, c: Config, waits: seq<Duration>) {
    && |waits| <= |drops|
    && forall i | 0 <= i < |waits| :: waits[i] == BackoffDelay(StreakAfter(drops, i + 1) - 1, c) <= c.max
  }

  lemma WaitedStep(drops: seq<Drop>, c: Config, waits: seq<Duration>, delay: Duration)
    requires Waited(drops, c, waits) && |waits| < |drops| && delay == WaitAfter(StreakAfter(drops, |waits| + 1) - 1, c)
    ensures Waited(drops, c, waits + [delay])
  {
    hide StreakAfter;
    var longer := waits + [delay];
    forall i | 0 <= i < |longer| ensures longer[i] == WaitAfter(StreakAfter(drops, i + 1) - 1, c) {
      assert i < |waits| ==> longer[i] == waits[i];
    }
  }

  /** Only the first wait of a series can differ from the closed form. */
  lemma WaitIsClosedFormExactly(k: nat, c: Config)
    ensures WaitAfter(k, c) == BackoffDelay(k, c) <= c.max <==> k > 0 || c.initial <= c.max
  {
  }

  /** Once there was a wait, all are the closed form and within the maximum exactly when the
      initial delay is. */
  lemma ClosedFormExactly(drops: seq<Drop>, c: Config, waits: seq<Duration>)
    requires Waited(drops, c, waits) && waits != []
    ensures ClosedForm(drops, c, waits) <==> c.initial <= c.max
  {
    hide BackoffDelay, StreakAfter;
    StreakStep(drops, 0);
    NoStreak(drops);
    forall i | 0 <= i < |waits|
      ensures waits[i] == BackoffDelay(StreakAfter(drops, i + 1) - 1, c) <= c.max <==> StreakAfter(drops, i + 1) > 1 || c.initial <= c.max
    {
      WaitIsClosedFormExactly(StreakAfter(drops, i + 1) - 1, c);
    }
    assert StreakAfter(drops, 1) == 1;
    assert waits[0] == WaitAfter(0, c);
  }

  /** How many of the first `n` drops were followed by a new connector. */
  function Rebuilt(drops: seq<Drop>, n: nat): nat
    requires n <= |drops|
  {
    if n == 0 then 0 else Rebuilt(drops, n - 1) + if drops[n - 1].rebuilt then 1 else 0
  }

  class Connector {
    const config: Config
    /** The connectors made so far; the loop runs the last one. */
    var made: nat
    /** The waits between connections. */
    ghost var waits: seq<Duration>

    constructor (config: Config)
      requires config.initial > 0 && config.max > 0 && config.multiplier >= 1
      ensures this.config == config && made == 1 && waits == []
    {
      this.config := config;
      made := 1;
      waits := [];
    }

    /** The loop over the given drops, cancelled after the last of them if it has not given
        up before. */
    method Start(drops: seq<Drop>) returns (end: End, seen: nat)
      requires config.initial > 0 && config.max > 0 && config.multiplier >= 1 && waits == []
      modifies this
      ensures if end == GaveUp then Exhausts(drops, config, seen) else seen == |drops| && forall n :: !Exhausts(drops, config, n)
      ensures |waits| == (if end == GaveUp then seen - 1 else seen)
      ensures Waited(drops, config, waits) && made == old(made) + Rebuilt(drops, |waits|)
      ensures waits != [] ==> (ClosedForm(drops, config, waits) <==> config.initial <= config.max)
      ensures forall i | 0 <= i < |waits| && drops[i].uptime >= 30_000_000_000 :: waits[i] == config.initial
    {
      hide BackoffDelay, Power, StreakAfter, WaitAfter, ClosedForm;
      var attempt, delay := 0, config.initial;
      FirstWait(config);
      NoStreak(drops);
      for i := 0 to |drops|
        invariant attempt == StreakAfter(drops, i) && |waits| == i && made == old(made) + Rebuilt(drops, i)
        invariant config.retries > 0 ==> forall k | 0 < k <= i :: StreakAfter(drops, k) < config.retries
        invariant delay == WaitAfter(attempt, config) && Waited(drops, config, waits)
        invariant waits != [] ==> (ClosedForm(drops, config, waits) <==> config.initial <= config.max)
        invariant forall k | 0 <= k < i && drops[k].uptime >= MIN_STABLE :: waits[k] == config.initial
      {
        StreakStep(drops, i);
        if drops[i].uptime >= MIN_STABLE {
          attempt := 0;
          delay := config.initial;
        }
        attempt := attempt + 1;
        if config.retries > 0 && attempt >= config.retries {
          return GaveUp, i + 1;
        }
        WaitedStep(drops, config, waits, delay);
        waits := waits + [delay];
        ClosedFormExactly(drops, config, waits);
        WaitStep(attempt - 1, config);
        delay := delay * config.multiplier;
        if delay > config.max {
          delay := config.max;
        }
        if drops[i].rebuilt {
          made := made + 1;
        }
      }
      end, seen := Cancelled, |drops|;
    }
  }

  lemma FirstWait(c: Config)
    ensures WaitAfter(0, c) == c.initial
  {
  }

  lemma NoStreak(drops: seq<Drop>)
    ensures StreakAfter(drops, 0) == 0
  {
  }

  lemma {:induction false} UnstableStreak(drops: seq<Drop>)
    requires forall i | 0 <= i < |drops| :: drops[i].uptime < MIN_STABLE
    ensures Streak(drops) == |drops|
  {
    if drops != [] {
      UnstableStreak(drops[..|drops| - 1]);
    }
  }

  /** With a limit, unstable drops alone end the loop after exactly that many. */
  lemma UnstableDropsExhaust(drops: seq<Drop>, c: Config, n: nat)
    requires c.retries > 0 && forall k | 0 <= k < |drops| :: drops[k].uptime < 30_000_000_000
    ensures Exhausts(drops, c, n) <==> n == c.retries && n <= |drops|
  {
    forall k | 0 < k <= |drops| ensures StreakAfter(drops, k) == k {
      UnstableStreak(drops[..k]);
    }
    if Exhausts(drops, c, n) && n > 1 {
      assert StreakAfter(drops, n - 1) < c.retries;
    }
  }
}
