/** The ordering of the legacy leak-interval records by their start time. */
module IntervalOrder {

  /** `DateTime.CompareTo` on ticks: -1, 0 or 1. */
  function CompareTicks(a: int, b: int): (r: int)
    ensures r == -1 || r == 0 || r == 1
    ensures r < 0 <==> a < b
    ensures r > 0 <==> a > b
  {
    if a < b then -1 else if a > b then 1 else 0
  }

  function Sign(x: int): int {
    if x < 0 then -1 else if x > 0 then 1 else 0
  }

  class LeakyBucketInterval {
    const start: int
    var requests: int

    constructor (start: int)
      ensures this.start == start && requests == 0
    {
      this.start := start;
      requests := 0;
    }

    /**
     * Orders by start: 0 against itself, 1 against null, otherwise the sign of
     * comparing the starts; the request count plays no part.
     */
    function CompareTo(other: LeakyBucketInterval?): (r: int)
      ensures other == null ==> r == 1
      ensures other != null ==> (r < 0 <==> start < other.start) && (r > 0 <==> start > other.start)
      ensures r == -1 || r == 0 || r == 1
    {
      if this == other then 0
      else if other == null then 1
      else CompareTicks(start, other.start)
    }

    /** Compares the start with a point in time. */
    function CompareToTime(other: int): (r: int)
      ensures r < 0 <==> start < other
      ensures r > 0 <==> start > other
      ensures r == -1 || r == 0 || r == 1
    {
      CompareTicks(start, other)
    }
  }

  lemma CompareToSelf(a: LeakyBucketInterval)
    ensures a.CompareTo(a) == 0
  {
  }

  /** Swapping the two intervals negates the sign of the comparison. */
  lemma CompareToAntisymmetric(a: LeakyBucketInterval, b: LeakyBucketInterval)
    ensures Sign(a.CompareTo(b)) == -Sign(b.CompareTo(a))
  {
  }

  /** Comparing two intervals agrees with comparing one with the other's start. */
  lemma CompareToAgreesWithTime(a: LeakyBucketInterval, b: LeakyBucketInterval)
    ensures a.CompareTo(b) == a.CompareToTime(b.start)
  {
  }
}
