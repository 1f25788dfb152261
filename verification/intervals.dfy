/** Closed intervals of reals, the subset of Guava's `Range<Double>` that the
    m/z tolerance code builds (`Range.closed`) and queries (`contains`,
    `lowerEndpoint`, `upperEndpoint`).
 */
module Intervals {

  /** The closed interval [lo, hi]. Guava never hands out one with lo > hi,
      so a well-formed value satisfies `Valid()`. */
  datatype Interval = Interval(lo: real, hi: real) {

    predicate Valid() {
      lo <= hi
    }

    /** Membership with both endpoints included. */
    predicate Contains(x: real) {
      lo <= x <= hi
    }

    /** Every point of `other` is a point of this interval. */
    predicate Encloses(other: Interval) {
      lo <= other.lo && other.hi <= hi
    }
  }

  /** The IllegalArgumentException `Range.closed` throws when lower > upper. */
  datatype RangeError = InvalidRange(lower: real, upper: real)

  /** A value, or the exception raised while computing it. */
  datatype Result<+T> = Success(value: T) | Failure(error: RangeError)

  /** `Range.closed(lo, hi)`: an interval when the bounds are ordered, an
      `InvalidRange` error otherwise. */
  function Closed(lo: real, hi: real): (r: Result<Interval>)
    ensures r.Success? <==> lo <= hi
    ensures r.Success? ==> r.value.Valid() && r.value.Contains(lo) && r.value.Contains(hi)
    ensures r.Success? ==> r.value.lo == lo && r.value.hi == hi
    ensures r.Failure? ==> r.error == InvalidRange(lo, hi)
  {
    if lo <= hi then Success(Interval(lo, hi)) else Failure(InvalidRange(lo, hi))
  }

  /** Enclosure, as defined by the endpoints, is exactly inclusion of the
      point sets (for a non-empty inner interval). */
  lemma EnclosesIsSubset(outer: Interval, inner: Interval)
    requires inner.Valid()
    ensures outer.Encloses(inner) <==> (forall x :: inner.Contains(x) ==> outer.Contains(x))
  {
    if forall x :: inner.Contains(x) ==> outer.Contains(x) {
      assert inner.Contains(inner.lo);
      assert inner.Contains(inner.hi);
    }
  }
}
