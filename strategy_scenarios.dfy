/**
 * The unit-test scenarios of the leaky-bucket strategy, stated over the value
 * model. A test's sleep of `s` seconds becomes an elapsed time of at least `s`
 * seconds and less than one second more; requests a test makes in a tight
 * loop happen at one instant.
 */
module StrategyScenarios {
  import opened Wrappers
  import opened LeakyBucket

  /** Consuming `requests` on a fresh identity, then checking, admits exactly when requests < maxRequests. */
  lemma CheckAfterRequests(config: LeakyBucketConfiguration, requests: int, now: int)
    requires config.leakRate > 0
    ensures var after := Leaked(Consumed(Fresh, requests), config, now);
            after == BucketState(requests, Some(now)) &&
            (GetRemainingAllowance(after, config) > 0 <==> requests < config.maxRequests)
  {
  }

  /**
   * Bucket of 5 leaking 5 per 5 seconds: after 5 requests the check fails,
   * and a check at least 5 seconds later succeeds with the bucket empty.
   */
  lemma EmptyBucketRefillsAfterInterval(t0: int, t1: int)
    requires t1 >= t0 + 5 * TicksPerSecond
    ensures var config := Configure(5, 5 * TicksPerSecond, 5);
            var first := Leaked(Consumed(Fresh, 5), config, t0);
            var second := Leaked(first, config, t1);
            GetRemainingAllowance(first, config) <= 0 &&
            second.requestCount == 0 && GetRemainingAllowance(second, config) == 5
  {
    var config := Configure(5, 5 * TicksPerSecond, 5);
    var first := Leaked(Consumed(Fresh, 5), config, t0);
    assert LeakDue(first, config, t1);
    DivMonotone(5 * TicksPerSecond, t1 - t0, 5 * TicksPerSecond);
    MulMonotone(5, 1, ElapsedIntervals(first, config, t1));
  }

  /** One step of the steady-rate test: consume 3, then check (which leaks). */
  function SteadyStep(b: BucketState, now: int): BucketState {
    Leaked(Consumed(b, 3), Configure(40, TicksPerSecond, 2), now)
  }

  /**
   * Bucket of 40 leaking 2 per second, 3 consumed per second: the remaining
   * allowance goes 37, 36, 35, 34 and every check succeeds.
   */
  lemma SteadyRateApproachesLimit(t0: int, d1: int, d2: int, d3: int)
    requires TicksPerSecond <= d1 < 2 * TicksPerSecond
    requires TicksPerSecond <= d2 < 2 * TicksPerSecond
    requires TicksPerSecond <= d3 < 2 * TicksPerSecond
    ensures var config := Configure(40, TicksPerSecond, 2);
            var b1 := SteadyStep(Fresh, t0);
            var b2 := SteadyStep(b1, t0 + d1);
            var b3 := SteadyStep(b2, t0 + d1 + d2);
            var b4 := SteadyStep(b3, t0 + d1 + d2 + d3);
            [GetRemainingAllowance(b1, config), GetRemainingAllowance(b2, config),
             GetRemainingAllowance(b3, config), GetRemainingAllowance(b4, config)] == [37, 36, 35, 34]
  {
  }

  /** Six admissions at once against a bucket of 5: five are admitted and one rejected. */
  lemma FiveOfSixAdmitted(now: int)
    ensures DecideMany(Fresh, Configure(5, 5 * TicksPerSecond, 0), now, 6).admitted == 5
    ensures DecideMany(Fresh, Configure(5, 5 * TicksPerSecond, 0), now, 6).rejected == 1
  {
    BurstFromFresh(Configure(5, 5 * TicksPerSecond, 0), now, 6);
  }

  /**
   * `requestCount` admissions at `t0`, then one more after `wait` ticks: the
   * remaining allowance afterwards, with a one-second leak interval.
   */
  function AfterALongInterval(maxRequests: int, leakAmount: int, requestCount: nat, t0: int, wait: int): int {
    var config := Configure(maxRequests, TicksPerSecond, leakAmount);
    var burst := DecideMany(Fresh, config, t0, requestCount);
    GetRemainingAllowance(Decide(burst.bucket, config, t0 + wait).bucket, config)
  }

  /** The six rows of the long-interval test, for any start time and any sleep overshoot below a second. */
  lemma LongIntervalRows(t0: int, jitter: int)
    requires 0 <= jitter < TicksPerSecond
    ensures AfterALongInterval(5, 1, 5, t0, 6 * TicksPerSecond + jitter) == 4
    ensures AfterALongInterval(5, 1, 4, t0, 2 * TicksPerSecond + jitter) == 2
    ensures AfterALongInterval(5, 1, 4, t0, 1 * TicksPerSecond + jitter) == 1
    ensures AfterALongInterval(10, 2, 4, t0, jitter) == 5
    ensures AfterALongInterval(10, 2, 4, t0, 1 * TicksPerSecond + jitter) == 7
    ensures AfterALongInterval(5, 1, 4, t0, jitter) == 0
  {
    BurstFromFresh(Configure(5, TicksPerSecond, 1), t0, 5);
    BurstFromFresh(Configure(5, TicksPerSecond, 1), t0, 4);
    BurstFromFresh(Configure(10, TicksPerSecond, 2), t0, 4);
  }

  /**
   * The headers flag alone decides whether headers are added: for the test's
   * configuration (bucket 2, one per second) with either flag, and for every
   * other configuration.
   */
  lemma ShouldAddHeadersFollowsFlag(config: LeakyBucketConfiguration, enableHeaders: bool)
    ensures ShouldAddHeaders(Configure(2, TicksPerSecond, 1).(enableHeaders := enableHeaders)) == enableHeaders
    ensures ShouldAddHeaders(config.(enableHeaders := enableHeaders)) == enableHeaders
  {
  }

  lemma DefaultHeaderNames()
    ensures "X-" + RemainingHeader == "X-RateLimit-Remaining"
    ensures "X-" + LeakRateHeader == "X-RateLimit-LeakRate"
    ensures "X-" + LeakAmountHeader == "X-RateLimit-LeakAmount"
    ensures "X-" + BucketSizeHeader == "X-RateLimit-BucketSize"
    ensures "X-" + CostHeader == "X-RateLimit-Cost"
  {
  }

  /**
   * With the default prefix, a fresh identity's remaining-allowance header
   * shows the bucket size, and one consumption lowers only that header, by one.
   */
  lemma HeadersOfFreshIdentity(maxRequests: int, leakRate: int, leakAmount: int, requestCost: int)
    ensures var config := Configure(maxRequests, leakRate, leakAmount).(requestCost := requestCost, enableHeaders := true);
            var before := GetResponseHeaders(Fresh, config);
            var after := GetResponseHeaders(Consumed(Fresh, 1), config);
            && |before| == 5 && after.Keys == before.Keys
            && "X-RateLimit-Remaining" in before && "X-RateLimit-LeakRate" in before
            && "X-RateLimit-LeakAmount" in before && "X-RateLimit-BucketSize" in before
            && "X-RateLimit-Cost" in before
            && Decimal.ParseInt(before["X-RateLimit-Remaining"]) == Some(maxRequests)
            && Decimal.ParseInt(before["X-RateLimit-LeakAmount"]) == Some(leakAmount)
            && Decimal.ParseInt(before["X-RateLimit-BucketSize"]) == Some(maxRequests)
            && Decimal.ParseInt(before["X-RateLimit-Cost"]) == Some(requestCost)
            && Decimal.ParseInt(after["X-RateLimit-Remaining"]) == Some(maxRequests - 1)
            && after["X-RateLimit-LeakRate"] == before["X-RateLimit-LeakRate"]
            && after["X-RateLimit-LeakAmount"] == before["X-RateLimit-LeakAmount"]
            && after["X-RateLimit-BucketSize"] == before["X-RateLimit-BucketSize"]
            && after["X-RateLimit-Cost"] == before["X-RateLimit-Cost"]
  {
    var config := Configure(maxRequests, leakRate, leakAmount).(requestCost := requestCost, enableHeaders := true);
    var before := GetResponseHeaders(Fresh, config);
    var after := GetResponseHeaders(Consumed(Fresh, 1), config);
    var remaining, leakRateKey := config.headerPrefix + RemainingHeader, config.headerPrefix + LeakRateHeader;
    var leakAmountKey, bucketSizeKey := config.headerPrefix + LeakAmountHeader, config.headerPrefix + BucketSizeHeader;
    var costKey := config.headerPrefix + CostHeader;
    DefaultHeaderNames();
    HeadersAfterConsume(Fresh, config, 1);
    assert Decimal.ParseInt(before[remaining]) == Some(GetRemainingAllowance(Fresh, config));
    assert Decimal.ParseInt(before[leakAmountKey]) == Some(config.leakAmount);
    assert Decimal.ParseInt(before[bucketSizeKey]) == Some(config.maxRequests);
    assert Decimal.ParseInt(before[costKey]) == Some(config.requestCost);
    assert Decimal.ParseInt(after[remaining]) == Some(GetRemainingAllowance(Fresh, config) - 1);
  }
}
