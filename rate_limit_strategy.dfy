/**
 * The leaky-bucket strategy's operations on a client identity, updating its
 * counters in place. Each is proved against the value functions of
 * LeakyBucket; the strategy itself holds no state.
 */
module RateLimitStrategy {
  import opened Wrappers
  import opened LeakyBucket
  import opened ClientIdentity

  /** The private leak step, with one `now` for all of the clock reads it makes. */
  method Leak(identity: LeakyBucketClientIdentity, config: LeakyBucketConfiguration, now: int)
    requires config.leakRate > 0
    modifies identity
    ensures identity.State() == Leaked(old(identity.State()), config, now)
    ensures identity.uniqueIdentifier == old(identity.uniqueIdentifier)
  {
    if identity.lastLeak.None? {
      identity.lastLeak := Some(now);
    }
    var last := identity.lastLeak.value;
    if last >= now || last + config.leakRate > now {
      return;
    }
    var timeSinceLastLeak := now - last;
    var leaksSinceLast := timeSinceLastLeak / config.leakRate;
    var rawLeakTotal := config.leakAmount * leaksSinceLast;
    identity.requestCount := identity.requestCount -
      (if rawLeakTotal >= identity.requestCount then identity.requestCount else rawLeakTotal);
    identity.lastLeak := Some(now);
  }

  /** Leaks, then answers whether any allowance remains. */
  method HasRemainingAllowance(identity: LeakyBucketClientIdentity, config: LeakyBucketConfiguration, now: int)
    returns (r: bool)
    requires config.leakRate > 0
    modifies identity
    ensures identity.State() == Leaked(old(identity.State()), config, now)
    ensures identity.uniqueIdentifier == old(identity.uniqueIdentifier)
    ensures r <==> GetRemainingAllowance(identity.State(), config) > 0
  {
    Leak(identity, config, now);
    r := GetRemainingAllowance(identity.State(), config) > 0;
  }

  /** Adds `requests` to the counter, unconditionally, and returns the new counter. */
  method ReduceAllowanceBy(identity: LeakyBucketClientIdentity, requests: int) returns (count: int)
    modifies identity
    ensures identity.State() == Consumed(old(identity.State()), requests)
    ensures identity.uniqueIdentifier == old(identity.uniqueIdentifier)
    ensures count == identity.requestCount
  {
    identity.requestCount := identity.requestCount + requests;
    count := identity.requestCount;
  }

  /** The configuration overload: consumes one request's configured cost. */
  method ReduceAllowanceByCost(identity: LeakyBucketClientIdentity, config: LeakyBucketConfiguration)
    returns (count: int)
    modifies identity
    ensures identity.State() == Consumed(old(identity.State()), config.requestCost)
    ensures identity.uniqueIdentifier == old(identity.uniqueIdentifier)
    ensures count == identity.requestCount
  {
    count := ReduceAllowanceBy(identity, config.requestCost);
  }

  /** Subtracts `requests` from the counter, with no clamping, and returns the new counter. */
  method IncreaseAllowanceBy(identity: LeakyBucketClientIdentity, requests: int) returns (count: int)
    modifies identity
    ensures identity.State() == Refunded(old(identity.State()), requests)
    ensures identity.uniqueIdentifier == old(identity.uniqueIdentifier)
    ensures count == identity.requestCount
  {
    identity.requestCount := identity.requestCount - requests;
    count := identity.requestCount;
  }

  /** The check-then-consume step a caller of the strategy performs once per request. */
  method Admit(identity: LeakyBucketClientIdentity, config: LeakyBucketConfiguration, now: int)
    returns (admitted: bool)
    requires config.leakRate > 0
    modifies identity
    ensures Decision(admitted, identity.State()) == Decide(old(identity.State()), config, now)
    ensures identity.uniqueIdentifier == old(identity.uniqueIdentifier)
  {
    admitted := HasRemainingAllowance(identity, config, now);
    if admitted {
      var _ := ReduceAllowanceByCost(identity, config);
    }
  }

  /** Consuming then refunding the same amount on an identity leaves its counters as they were. */
  method ConsumeThenRefund(identity: LeakyBucketClientIdentity, requests: int)
    modifies identity
    ensures identity.State() == old(identity.State())
  {
    var _ := ReduceAllowanceBy(identity, requests);
    var _ := IncreaseAllowanceBy(identity, requests);
    RefundUndoesConsume(old(identity.State()), requests);
  }
}
