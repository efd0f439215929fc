/**
 * The arithmetic of the leaky-bucket strategy, on values: a client's bucket
 * (its consumed-request counter and the time of its last leak) and the
 * configuration that governs it. The strategy's methods, which update a
 * client identity in place, are specified by these functions.
 *
 * Time is counted in ticks of 100 ns, the unit of the source's timestamps and
 * durations; one `now` stands for the clock reads of one call.
 */
module LeakyBucket {
  import opened Wrappers
  import Decimal

  const TicksPerSecond: int := 10_000_000

  /**
   * The leaky-bucket configuration: the bucket size, the leak interval (in
   * ticks), the amount leaked per interval, the cost of one request, and the
   * header settings inherited from the base configuration.
   */
  datatype LeakyBucketConfiguration = LeakyBucketConfiguration(
    maxRequests: int,
    leakRate: int,
    leakAmount: int,
    requestCost: int,
    enableHeaders: bool,
    headerPrefix: string)

  /** A configuration with the three numeric fields set and every other field at its declared default. */
  function Configure(maxRequests: int, leakRate: int, leakAmount: int): LeakyBucketConfiguration {
    LeakyBucketConfiguration(maxRequests, leakRate, leakAmount, 1, false, "X-")
  }

  /** The mutable part of a client identity: the request counter and the last leak time, if any. */
  datatype BucketState = BucketState(requestCount: int, lastLeak: Option<int>)

  /** The bucket of a freshly constructed identity. */
  const Fresh: BucketState := BucketState(0, None)

  function Max(a: int, b: int): int {
    if a >= b then a else b
  }

  function Min(a: int, b: int): int {
    if a <= b then a else b
  }

  /** The remaining allowance: bucket size minus consumed requests, possibly negative. */
  function GetRemainingAllowance(b: BucketState, config: LeakyBucketConfiguration): (r: int)
    ensures r > 0 <==> b.requestCount < config.maxRequests
  {
    config.maxRequests - b.requestCount
  }

  /** The bucket after `requests` more requests are consumed. */
  function Consumed(b: BucketState, requests: int): BucketState {
    b.(requestCount := b.requestCount + requests)
  }

  /** The bucket after `requests` consumed requests are given back. */
  function Refunded(b: BucketState, requests: int): BucketState {
    b.(requestCount := b.requestCount - requests)
  }

  /** True when a leak at `now` finds a whole leak interval elapsed since the last one. */
  predicate LeakDue(b: BucketState, config: LeakyBucketConfiguration, now: int) {
    b.lastLeak.Some? && b.lastLeak.value + config.leakRate <= now
  }

  /** The number of whole leak intervals between the last leak and `now`. */
  function ElapsedIntervals(b: BucketState, config: LeakyBucketConfiguration, now: int): int
    requires config.leakRate > 0 && b.lastLeak.Some?
  {
    (now - b.lastLeak.value) / config.leakRate
  }

  /**
   * The bucket after a leak at `now`: a first observation only records the
   * time; before a whole interval has elapsed nothing changes; otherwise the
   * counter drops by the amount leaked over the whole elapsed intervals, not
   * below zero, and the leak clock is re-based to `now`.
   */
  function Leaked(b: BucketState, config: LeakyBucketConfiguration, now: int): (r: BucketState)
    requires config.leakRate > 0
    // the leak clock is set, and another leak at the same instant would do nothing
    ensures r.lastLeak.Some? && now < r.lastLeak.value + config.leakRate
    ensures b.lastLeak.None? ==> r == BucketState(b.requestCount, Some(now))
    ensures b.lastLeak.Some? && !LeakDue(b, config, now) ==> r == b
    ensures LeakDue(b, config, now) ==>
              r.lastLeak == Some(now) &&
              r.requestCount == Max(0, b.requestCount - config.leakAmount * ElapsedIntervals(b, config, now))
  {
    var last := b.lastLeak.GetOr(now);
    if last >= now || last + config.leakRate > now then
      BucketState(b.requestCount, Some(last))
    else
      var leaksSinceLast := (now - last) / config.leakRate;
      var rawLeakTotal := config.leakAmount * leaksSinceLast;
      BucketState(b.requestCount - (if rawLeakTotal >= b.requestCount then b.requestCount else rawLeakTotal), Some(now))
  }

  /** The outcome of one check-then-consume admission step. */
  datatype Decision = Decision(admitted: bool, bucket: BucketState)

  /**
   * Check-then-consume: leak, admit when allowance remains and then consume
   * one request's cost; otherwise reject with only the leak applied.
   */
  function Decide(b: BucketState, config: LeakyBucketConfiguration, now: int): (d: Decision)
    requires config.leakRate > 0
    ensures d.admitted <==> Leaked(b, config, now).requestCount < config.maxRequests
    ensures d.bucket.lastLeak == Leaked(b, config, now).lastLeak
    ensures d.bucket.requestCount == Leaked(b, config, now).requestCount + (if d.admitted then config.requestCost else 0)
  {
    var leaked := Leaked(b, config, now);
    if GetRemainingAllowance(leaked, config) > 0 then Decision(true, Consumed(leaked, config.requestCost))
    else Decision(false, leaked)
  }

  /** The tally of `n` admission steps taken at one instant. */
  datatype Run = Run(admitted: nat, rejected: nat, bucket: BucketState)

  /**
   * Only the first step can leak: it sets the clock, and the later steps at
   * the same instant find no leak due, so the clock after a non-empty run is
   * the clock after one leak.
   */
  function DecideMany(b: BucketState, config: LeakyBucketConfiguration, now: int, n: nat): (r: Run)
    requires config.leakRate > 0
    ensures r.admitted + r.rejected == n
    ensures n == 0 ==> r == Run(0, 0, b)
    ensures n > 0 ==> r.bucket.lastLeak == Leaked(b, config, now).lastLeak
    decreases n
  {
    if n == 0 then Run(0, 0, b)
    else
      var d := Decide(b, config, now);
      var rest := DecideMany(d.bucket, config, now, n - 1);
      if d.admitted then Run(rest.admitted + 1, rest.rejected, rest.bucket)
      else Run(rest.admitted, rest.rejected + 1, rest.bucket)
  }

  /** The bucket after consuming each amount of `amounts` in turn, with no leak in between. */
  function ConsumedAll(b: BucketState, amounts: seq<int>): BucketState
    decreases |amounts|
  {
    if |amounts| == 0 then b else ConsumedAll(Consumed(b, amounts[0]), amounts[1..])
  }

  function Sum(amounts: seq<int>): int
    decreases |amounts|
  {
    if |amounts| == 0 then 0 else amounts[0] + Sum(amounts[1..])
  }

  // ---------------------------------------------------------------------------
  // Headers

  const RemainingHeader: string := "RateLimit-Remaining"
  const LeakRateHeader: string := "RateLimit-LeakRate"
  const LeakAmountHeader: string := "RateLimit-LeakAmount"
  const BucketSizeHeader: string := "RateLimit-BucketSize"
  const CostHeader: string := "RateLimit-Cost"

  function HeaderNames(prefix: string): set<string> {
    {prefix + RemainingHeader, prefix + LeakRateHeader, prefix + LeakAmountHeader,
     prefix + BucketSizeHeader, prefix + CostHeader}
  }

  lemma PrefixedNamesDistinct(prefix: string, a: string, b: string)
    requires a != b
    ensures prefix + a != prefix + b
  {
    assert (prefix + a)[|prefix|..] == a;
    assert (prefix + b)[|prefix|..] == b;
  }

  /**
   * The five diagnostic headers: the remaining allowance (without a leak) and
   * the four configured quantities, each under the configured prefix.
   */
  function GetResponseHeaders(b: BucketState, config: LeakyBucketConfiguration): (h: map<string, string>)
    ensures h.Keys == HeaderNames(config.headerPrefix)
    ensures |h| == 5
    ensures Decimal.ParseInt(h[config.headerPrefix + RemainingHeader]) == Some(GetRemainingAllowance(b, config))
    ensures Decimal.ParseInt(h[config.headerPrefix + LeakRateHeader]) == Some(config.leakRate)
    ensures Decimal.ParseInt(h[config.headerPrefix + LeakAmountHeader]) == Some(config.leakAmount)
    ensures Decimal.ParseInt(h[config.headerPrefix + BucketSizeHeader]) == Some(config.maxRequests)
    ensures Decimal.ParseInt(h[config.headerPrefix + CostHeader]) == Some(config.requestCost)
  {
    var p := config.headerPrefix;
    PrefixedNamesDistinct(p, RemainingHeader, LeakRateHeader);
    PrefixedNamesDistinct(p, RemainingHeader, LeakAmountHeader);
    PrefixedNamesDistinct(p, RemainingHeader, BucketSizeHeader);
    PrefixedNamesDistinct(p, RemainingHeader, CostHeader);
    PrefixedNamesDistinct(p, LeakRateHeader, LeakAmountHeader);
    PrefixedNamesDistinct(p, LeakRateHeader, BucketSizeHeader);
    PrefixedNamesDistinct(p, LeakRateHeader, CostHeader);
    PrefixedNamesDistinct(p, LeakAmountHeader, BucketSizeHeader);
    PrefixedNamesDistinct(p, LeakAmountHeader, CostHeader);
    PrefixedNamesDistinct(p, BucketSizeHeader, CostHeader);
    Decimal.IntToStringRoundTrip(GetRemainingAllowance(b, config));
    Decimal.IntToStringRoundTrip(config.leakRate);
    Decimal.IntToStringRoundTrip(config.leakAmount);
    Decimal.IntToStringRoundTrip(config.maxRequests);
    Decimal.IntToStringRoundTrip(config.requestCost);
    map[
      p + RemainingHeader := Decimal.IntToString(GetRemainingAllowance(b, config)),
      p + LeakRateHeader := Decimal.IntToString(config.leakRate),
      p + LeakAmountHeader := Decimal.IntToString(config.leakAmount),
      p + BucketSizeHeader := Decimal.IntToString(config.maxRequests),
      p + CostHeader := Decimal.IntToString(config.requestCost)
    ]
  }

  /** Whether headers go on the response: the configuration's flag, whatever the other fields hold. */
  function ShouldAddHeaders(config: LeakyBucketConfiguration): (r: bool)
    ensures r <==> config.enableHeaders
  {
    config.enableHeaders
  }

  // ---------------------------------------------------------------------------
  // Properties

  /** A fresh identity reports the whole bucket as remaining. */
  lemma FreshBucketHasFullAllowance(config: LeakyBucketConfiguration)
    ensures GetRemainingAllowance(Fresh, config) == config.maxRequests
  {
  }

  /** Consuming never clamps and never touches the leak clock; the allowance drops by exactly the amount. */
  lemma ConsumeLowersAllowance(b: BucketState, config: LeakyBucketConfiguration, requests: int)
    ensures Consumed(b, requests).lastLeak == b.lastLeak
    ensures GetRemainingAllowance(Consumed(b, requests), config) == GetRemainingAllowance(b, config) - requests
  {
  }

  /** A refund of the same amount undoes a consumption, even past zero. */
  lemma RefundUndoesConsume(b: BucketState, requests: int)
    ensures Refunded(Consumed(b, requests), requests) == b
    ensures Consumed(Refunded(b, requests), requests) == b
  {
  }

  /** Consuming a sequence of amounts without a leak lowers the allowance by their sum. */
  lemma {:induction false} ConsumedAllLowersBySum(b: BucketState, config: LeakyBucketConfiguration, amounts: seq<int>)
    ensures ConsumedAll(b, amounts).lastLeak == b.lastLeak
    ensures GetRemainingAllowance(ConsumedAll(b, amounts), config) == GetRemainingAllowance(b, config) - Sum(amounts)
    decreases |amounts|
  {
    if |amounts| > 0 {
      ConsumedAllLowersBySum(Consumed(b, amounts[0]), config, amounts[1..]);
    }
  }

  /** Two leaks at the same instant act as one. */
  lemma LeakIdempotent(b: BucketState, config: LeakyBucketConfiguration, now: int)
    requires config.leakRate > 0
    ensures Leaked(Leaked(b, config, now), config, now) == Leaked(b, config, now)
  {
  }

  /**
   * With a non-negative leak amount, a due leak lowers a non-negative counter
   * by the smaller of the leaked total and the counter, and raises a negative
   * counter to zero.
   */
  lemma LeakDecreasesByLeakedTotal(b: BucketState, config: LeakyBucketConfiguration, now: int)
    requires config.leakRate > 0 && config.leakAmount >= 0
    requires LeakDue(b, config, now)
    ensures var total := config.leakAmount * ElapsedIntervals(b, config, now);
            b.requestCount >= 0 ==> Leaked(b, config, now).requestCount == b.requestCount - Min(total, b.requestCount)
    ensures b.requestCount < 0 ==> Leaked(b, config, now).requestCount == 0
  {
  }

  lemma MulNonNegative(a: int, b: int)
    requires a >= 0 && b >= 0
    ensures a * b >= 0
  {
  }

  lemma MulMonotone(a: int, x: int, y: int)
    requires a >= 0 && x <= y
    ensures a * x <= a * y
  {
  }

  /** Floor division of non-negative numbers by a positive divisor is super-additive. */
  lemma DivSuperAdditive(x: int, y: int, d: int)
    requires x >= 0 && y >= 0 && d > 0
    ensures x / d + y / d <= (x + y) / d
  {
    var qx, qy, q := x / d, y / d, (x + y) / d;
    assert d * qx + x % d == x;
    assert d * qy + y % d == y;
    assert d * q + (x + y) % d == x + y;
    if q < qx + qy {
      MulMonotone(d, q, qx + qy - 1);
    }
  }

  lemma DivMonotone(x: int, y: int, d: int)
    requires 0 <= x <= y && d > 0
    ensures x / d <= y / d
  {
    DivSuperAdditive(x, y - x, d);
  }

  /**
   * Because every leak re-bases the clock to the instant it happened, leaking
   * at `t1` and then at `t2` never leaks more than a single catch-up leak at
   * `t2`.
   */
  lemma SplitLeakNeverDrainsMore(b: BucketState, config: LeakyBucketConfiguration, t1: int, t2: int)
    requires config.leakRate > 0 && config.leakAmount >= 0
    requires b.lastLeak.Some? && b.lastLeak.value <= t1 <= t2
    ensures Leaked(Leaked(b, config, t1), config, t2).requestCount >= Leaked(b, config, t2).requestCount
  {
    if LeakDue(b, config, t1) {
      var b1 := Leaked(b, config, t1);
      LeakedTotalsSplit(b, config, t1, t2);
      var x := config.leakAmount * ElapsedIntervals(b, config, t1);
      var y := if LeakDue(b1, config, t2) then config.leakAmount * ElapsedIntervals(b1, config, t2) else 0;
      var z := config.leakAmount * ElapsedIntervals(b, config, t2);
      ClampTwice(b.requestCount, x, y, z);
    }
  }

  /**
   * The amounts leaked at `t1` and then at `t2` add up to no more than the
   * amount a single leak at `t2` would take.
   */
  lemma LeakedTotalsSplit(b: BucketState, config: LeakyBucketConfiguration, t1: int, t2: int)
    requires config.leakRate > 0 && config.leakAmount >= 0
    requires b.lastLeak.Some? && t1 <= t2 && LeakDue(b, config, t1)
    ensures LeakDue(b, config, t2)
    ensures var b1 := Leaked(b, config, t1);
            var y := if LeakDue(b1, config, t2) then config.leakAmount * ElapsedIntervals(b1, config, t2) else 0;
            y >= 0 &&
            config.leakAmount * ElapsedIntervals(b, config, t1) + y <= config.leakAmount * ElapsedIntervals(b, config, t2)
  {
    var last, rate, a := b.lastLeak.value, config.leakRate, config.leakAmount;
    var k1, k2, k := (t1 - last) / rate, (t2 - t1) / rate, (t2 - last) / rate;
    var b1 := Leaked(b, config, t1);
    assert b1.lastLeak == Some(t1);
    DivSuperAdditive(t1 - last, t2 - t1, rate);
    DivMonotone(0, t2 - t1, rate);
    MulMonotone(a, k1 + k2, k);
    MulNonNegative(a, k2);
    assert a * (k1 + k2) == a * k1 + a * k2;
    MulMonotone(a, k1, k);
  }

  lemma ClampTwice(c: int, x: int, y: int, z: int)
    requires y >= 0 && x + y <= z
    ensures Max(0, Max(0, c - x) - y) >= Max(0, c - z)
  {
  }

  /**
   * The re-basing loses the partial interval: with one leak per 10 ticks, a
   * leak at 15 and another at 20 leak one request, where a single leak at 20
   * leaks two.
   */
  lemma RebasingDropsPartialInterval()
    ensures var config := Configure(10, 10, 1);
            var b := BucketState(5, Some(0));
            Leaked(Leaked(b, config, 15), config, 20).requestCount == 4 &&
            Leaked(b, config, 20).requestCount == 3
  {
  }

  /**
   * A run of admissions at one instant from a bucket whose clock is already
   * set and not due admits requests until the bucket is full and rejects the
   * rest, without changing anything on rejection.
   */
  lemma {:induction false} BurstWithinInterval(b: BucketState, config: LeakyBucketConfiguration, now: int, n: nat)
    requires config.leakRate > 0 && config.requestCost == 1
    requires b.lastLeak.Some? && now < b.lastLeak.value + config.leakRate
    ensures var admitted := if b.requestCount >= config.maxRequests then 0 else Min(n, config.maxRequests - b.requestCount);
            DecideMany(b, config, now, n) == Run(admitted, n - admitted, BucketState(b.requestCount + admitted, b.lastLeak))
    decreases n
  {
    if n > 0 {
      var d := Decide(b, config, now);
      BurstWithinInterval(d.bucket, config, now, n - 1);
    }
  }

  /**
   * From a fresh identity, `n` admissions at one instant admit the first
   * `maxRequests` of them (one unit of cost each) and reject the rest.
   */
  lemma BurstFromFresh(config: LeakyBucketConfiguration, now: int, n: nat)
    requires config.leakRate > 0 && config.requestCost == 1 && config.maxRequests >= 0
    requires n >= 1
    ensures DecideMany(Fresh, config, now, n) ==
            Run(Min(n, config.maxRequests), n - Min(n, config.maxRequests), BucketState(Min(n, config.maxRequests), Some(now)))
  {
    var d := Decide(Fresh, config, now);
    BurstWithinInterval(d.bucket, config, now, n - 1);
  }

  /** After one consumption, only the remaining-allowance header changes, by the amount consumed. */
  lemma HeadersAfterConsume(b: BucketState, config: LeakyBucketConfiguration, requests: int)
    ensures var before, after := GetResponseHeaders(b, config), GetResponseHeaders(Consumed(b, requests), config);
            var remaining := config.headerPrefix + RemainingHeader;
            after.Keys == before.Keys &&
            (forall name :: name in before && name != remaining ==> after[name] == before[name]) &&
            Decimal.ParseInt(after[remaining]) == Some(GetRemainingAllowance(b, config) - requests)
  {
  }
}
