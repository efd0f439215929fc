/** The client identity the leaky-bucket strategy keeps its counters on. */
module ClientIdentity {
  import opened Wrappers
  import opened LeakyBucket

  /**
   * A caller's identity: an identifier (possibly null, here `None`) and the
   * bucket counters the strategy updates in place. Providers hand the same
   * object back for the same caller, so it is a class.
   */
  class LeakyBucketClientIdentity {
    var uniqueIdentifier: Option<string>
    var requestCount: int
    var lastLeak: Option<int>

    /** An identity created with an object initializer that sets only the identifier. */
    constructor (uniqueIdentifier: Option<string>)
      ensures this.uniqueIdentifier == uniqueIdentifier
      ensures State() == Fresh
    {
      this.uniqueIdentifier := uniqueIdentifier;
      requestCount := 0;
      lastLeak := None;
    }

    /** The bucket counters as a value. */
    function State(): BucketState
      reads this
    {
      BucketState(requestCount, lastLeak)
    }

    /**
     * Identifier-only equality; a null `other` has a null identifier, so an
     * identity equals null exactly when its own identifier is null.
     */
    predicate Equals(other: LeakyBucketClientIdentity?)
      reads this, other
      ensures other == this ==> Equals(other)
      ensures other == null ==> (Equals(other) <==> uniqueIdentifier.None?)
    {
      (if other == null then None else other.uniqueIdentifier) == uniqueIdentifier
    }
  }

  /** Equality looks only at identifiers: counters and leak times play no part. */
  lemma EqualsIgnoresCounters(a: LeakyBucketClientIdentity, b: LeakyBucketClientIdentity)
    ensures a.Equals(b) <==> a.uniqueIdentifier == b.uniqueIdentifier
  {
  }

  lemma EqualsSymmetric(a: LeakyBucketClientIdentity, b: LeakyBucketClientIdentity)
    ensures a.Equals(b) <==> b.Equals(a)
  {
  }

  lemma EqualsTransitive(a: LeakyBucketClientIdentity, b: LeakyBucketClientIdentity, c: LeakyBucketClientIdentity)
    ensures a.Equals(b) && b.Equals(c) ==> a.Equals(c)
  {
  }
}
