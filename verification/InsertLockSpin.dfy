/** The Redis spin loop of acquireChannelInsertLease and the environment bounds it relies on. */
module InsertLockSpin {
  import opened Basics

  function Pow2(n: nat): nat { if n == 0 then 1 else 2 * Pow2(n - 1) }

  lemma {:induction false} Pow2Positive(n: nat)
    ensures Pow2(n) >= 1
  {
    if n == 0 {
    } else {
      Pow2Positive(n - 1);
    }
  }

  datatype SpinConfig = SpinConfig(pollMin: int, pollMax: int, waitTimeout: int)

  /** The three settings as the module reads them; the fallback of POLL_MAX is not raised to POLL_MIN. */
  function ReadConfig(pollMin: Option<int>, pollMax: Option<int>, waitTimeout: Option<int>): SpinConfig {
    var min := ParseIntEnv(pollMin, 15, 5, 250);
    SpinConfig(min, ParseIntEnv(pollMax, 120, min, 1000), ParseIntEnv(waitTimeout, 2000, 500, 4000))
  }

  /** The shortest poll delay a configuration allows. */
  function MinDelay(cfg: SpinConfig): int { Min(cfg.pollMin, cfg.pollMax) }

  predicate Sane(cfg: SpinConfig) { cfg.pollMin >= 1 && cfg.pollMax >= 1 && cfg.waitTimeout >= 0 }

  /**
   * Whatever the environment holds, every setting is positive; the two poll bounds are in order except when
   * POLL_MAX is left to its fallback of 120 and POLL_MIN is set above it.
   */
  lemma ConfigBounds(pollMin: Option<int>, pollMax: Option<int>, waitTimeout: Option<int>)
    ensures var cfg := ReadConfig(pollMin, pollMax, waitTimeout);
            && Sane(cfg) && 5 <= MinDelay(cfg) <= 250 && cfg.pollMax <= 1000 && 500 <= cfg.waitTimeout <= 4000
            && (cfg.pollMin > cfg.pollMax <==> pollMax == None && pollMin.Some? && pollMin.value > 120)
            && (pollMin.Some? && 5 <= pollMin.value <= 250 ==> cfg.pollMin == pollMin.value)
            && (pollMax.Some? && cfg.pollMin <= pollMax.value <= 1000 ==> cfg.pollMax == pollMax.value)
            && (waitTimeout.Some? && 500 <= waitTimeout.value <= 4000 ==> cfg.waitTimeout == waitTimeout.value)
    ensures ReadConfig(None, None, None) == SpinConfig(15, 120, 2000)
  {}

  /** The jitter bound of one attempt: Math.random() is below 1, so the jitter stays below it. */
  function JitterBound(base: int): (bound: int)
    ensures base >= 2 ==> 2 * bound <= base < 2 * bound + 2
    ensures base < 2 ==> bound == 1
  {
    Max(1, base / 2)
  }

  function BaseDelay(cfg: SpinConfig, attempt: nat): int {
    Min(cfg.pollMax, cfg.pollMin * Pow2(attempt))
  }

  /** jitteredSleepMs for a drawn jitter. */
  function JitteredSleep(cfg: SpinConfig, attempt: nat, jitter: nat): int {
    Min(cfg.pollMax, BaseDelay(cfg, attempt) + jitter)
  }

  /** Exponential backoff without powers: POLL_MIN, doubled with every attempt, capped at POLL_MAX. */
  function Doubled(cfg: SpinConfig, attempt: nat): int {
    if attempt == 0 then Min(cfg.pollMax, cfg.pollMin) else Min(cfg.pollMax, 2 * Doubled(cfg, attempt - 1))
  }

  lemma {:induction false} BaseDelayDoubles(cfg: SpinConfig, attempt: nat)
    requires Sane(cfg)
    ensures BaseDelay(cfg, attempt) == Doubled(cfg, attempt) >= MinDelay(cfg)
  {
    Pow2Positive(attempt);
    if attempt == 0 {
    } else {
      BaseDelayDoubles(cfg, attempt - 1);
      TwiceThePower(cfg.pollMin, attempt);
    }
  }

  lemma TwiceThePower(m: int, attempt: nat)
    requires attempt >= 1
    ensures m * Pow2(attempt) == 2 * (m * Pow2(attempt - 1))
  {}

  /**
   * The delay of an attempt is at least the doubled one, and above it by at most half of it, or by nothing where half
   * is less than one.
   */
  lemma DelayBounds(cfg: SpinConfig, attempt: nat, jitter: nat)
    requires Sane(cfg)
    ensures MinDelay(cfg) <= Doubled(cfg, attempt) <= JitteredSleep(cfg, attempt, jitter) <= cfg.pollMax
    ensures jitter < JitterBound(BaseDelay(cfg, attempt)) ==>
              2 * JitteredSleep(cfg, attempt, jitter) <= 3 * Doubled(cfg, attempt)
  {
    BaseDelayDoubles(cfg, attempt);
  }

  datatype Reply = Ok | Nil | Failed

  /** What one pass of the loop meets: the clock at its guard, the SET reply, the clock after it, a jitter draw. */
  datatype Pass = Pass(before: int, reply: Reply, after: int, jitter: nat)

  datatype Outcome = Acquired | RedisError | TimedOut

  function SleepAfter(cfg: SpinConfig, deadline: int, env: nat -> Pass, k: nat): int {
    Min(deadline - env(k).after, JitteredSleep(cfg, k, env(k).jitter))
  }

  predicate PassOk(cfg: SpinConfig, deadline: int, env: nat -> Pass, k: nat) {
    && env(k).before <= env(k).after
    && env(k).jitter < JitterBound(BaseDelay(cfg, k))
    && (env(k).after < deadline ==> env(k + 1).before >= env(k).after + SleepAfter(cfg, deadline, env, k))
  }

  /**
   * Sleep k ends by the deadline, and is between once and one and a half times the doubled delay unless it ends
   * exactly there.
   */
  predicate SleepOk(cfg: SpinConfig, deadline: int, env: nat -> Pass, k: nat, sleep: int) {
    && 0 < sleep <= cfg.pollMax && env(k).after + sleep <= deadline
    && (sleep < Doubled(cfg, k) ==> env(k).after + sleep == deadline)
    && 2 * sleep <= 3 * Doubled(cfg, k)
  }

  lemma SleepIsOk(cfg: SpinConfig, deadline: int, env: nat -> Pass, k: nat)
    requires Sane(cfg) && PassOk(cfg, deadline, env, k) && env(k).after < deadline
    ensures SleepOk(cfg, deadline, env, k, SleepAfter(cfg, deadline, env, k))
  {
    DelayBounds(cfg, k, env(k).jitter);
    hide JitteredSleep, Doubled;
  }

  /** The clock never goes back and no timer fires early. */
  ghost predicate ClockOk(cfg: SpinConfig, deadline: int, env: nat -> Pass) {
    forall k: nat :: PassOk(cfg, deadline, env, k)
  }

  /** One full pass moves the guard clock forward by a poll delay, or to the deadline. */
  lemma PassAdvances(cfg: SpinConfig, deadline: int, env: nat -> Pass, k: nat, from: int)
    requires Sane(cfg) && PassOk(cfg, deadline, env, k) && env(k).after < deadline
    requires env(k).before >= from + PollTime(cfg, k)
    ensures env(k + 1).before >= from + PollTime(cfg, k + 1) || env(k + 1).before >= deadline
    ensures env(k + 1).before > env(k).before
  {
    DelayBounds(cfg, k, env(k).jitter);
    OneMoreDelay(cfg, k);
    hide PollTime, JitteredSleep;
  }

  /** The time that n shortest poll delays take. */
  function PollTime(cfg: SpinConfig, n: int): int { n * MinDelay(cfg) }

  lemma OneMoreDelay(cfg: SpinConfig, n: int)
    ensures PollTime(cfg, n + 1) == PollTime(cfg, n) + MinDelay(cfg) && PollTime(cfg, 0) == 0
  {}

  /**
   * The loop ends; it reports the first decisive reply, or a timeout once the clock has reached the deadline
   * fixed when the call was queued; no sleep passes that deadline; sleep k is between once and one and a half times
   * the doubled delay of attempt k, unless it ends exactly at the deadline; and the number of SET commands is at most
   * the wait timeout divided by the shortest poll delay, plus two.
   */
  method Spin(cfg: SpinConfig, enqueuedAt: int, env: nat -> Pass)
    returns (outcome: Outcome, setCalls: nat, sleeps: seq<int>)
    requires Sane(cfg) && enqueuedAt <= env(0).before && ClockOk(cfg, enqueuedAt + cfg.waitTimeout, env)
    ensures forall k: nat :: k < setCalls ==> env(k).before <= enqueuedAt + cfg.waitTimeout
    ensures forall k: nat :: k + 1 < setCalls ==> env(k).reply == Nil
    ensures outcome == Acquired ==> setCalls > 0 && env(setCalls - 1).reply == Ok
    ensures outcome == RedisError ==> setCalls > 0 && env(setCalls - 1).reply == Failed
    ensures outcome == TimedOut ==>
              && (setCalls > 0 ==> env(setCalls - 1).reply == Nil)
              && (env(setCalls).before > enqueuedAt + cfg.waitTimeout
                  || (setCalls > 0 && env(setCalls - 1).after >= enqueuedAt + cfg.waitTimeout))
    ensures forall k :: 0 <= k < |sleeps| ==> SleepOk(cfg, enqueuedAt + cfg.waitTimeout, env, k, sleeps[k])
    ensures |sleeps| + 1 >= setCalls >= |sleeps|
    ensures PollTime(cfg, setCalls - 2) <= cfg.waitTimeout
  {
    var deadline := enqueuedAt + cfg.waitTimeout;
    var attempt := 0;
    setCalls, sleeps := 0, [];
    OneMoreDelay(cfg, 0);
    OneMoreDelay(cfg, -1);
    OneMoreDelay(cfg, -2);
    while env(attempt).before <= deadline
      invariant setCalls == attempt == |sleeps|
      invariant forall k: nat :: k < attempt ==> env(k).before <= deadline && env(k).reply == Nil
      invariant forall k :: 0 <= k < |sleeps| ==> SleepOk(cfg, deadline, env, k, sleeps[k])
      invariant PollTime(cfg, attempt - 1) <= cfg.waitTimeout && PollTime(cfg, attempt - 2) <= cfg.waitTimeout
      invariant env(attempt).before >= enqueuedAt + PollTime(cfg, attempt) || env(attempt).before >= deadline
      decreases deadline - env(attempt).before
    {
      hide PollTime, JitteredSleep, BaseDelay, JitterBound, SleepOk;
      OneMoreDelay(cfg, attempt - 1);
      assert PassOk(cfg, deadline, env, attempt);
      setCalls := setCalls + 1;
      if env(attempt).reply == Ok {
        return Acquired, setCalls, sleeps;
      } else if env(attempt).reply == Failed {
        return RedisError, setCalls, sleeps;
      }
      var remaining := deadline - env(attempt).after;
      if remaining <= 0 {
        return TimedOut, setCalls, sleeps;
      }
      PassAdvances(cfg, deadline, env, attempt, enqueuedAt);
      SleepIsOk(cfg, deadline, env, attempt);
      sleeps := sleeps + [Min(remaining, JitteredSleep(cfg, attempt, env(attempt).jitter))];
      attempt := attempt + 1;
    }
    return TimedOut, setCalls, sleeps;
  }

  /** With any environment values the module accepts, one call sends at most 802 SET commands. */
  lemma AtMost802Sets(pollMin: Option<int>, pollMax: Option<int>, waitTimeout: Option<int>, setCalls: nat)
    requires var cfg := ReadConfig(pollMin, pollMax, waitTimeout); PollTime(cfg, setCalls - 2) <= cfg.waitTimeout
    ensures setCalls <= 802
  {
    var cfg := ReadConfig(pollMin, pollMax, waitTimeout);
    ConfigBounds(pollMin, pollMax, waitTimeout);
    hide ReadConfig;
    if setCalls > 802 { FiveEach(setCalls - 2, MinDelay(cfg)); }
  }

  lemma FiveEach(n: nat, delay: int)
    requires delay >= 5
    ensures n * delay >= 5 * n
  {}
}
