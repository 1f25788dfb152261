/** The "maximum of m/z or ppm" tolerance of MZmine: a value mz2 matches mz1
    when it lies within the wider of an absolute window (in m/z) and a
    relative window (in parts per million of mz1).

    Arithmetic is exact over `real`; the Java code works on IEEE doubles.
    The division by zero in the ppm view at mz == 0, where the result is no
    longer a real number, is modelled by `Double`.
 */
module MaximumMZTolerance {
  import opened Intervals

  /** The ppm conversion factor. */
  const Million: real := 1000000.0

  /** The two user-set tolerances: absolute (m/z) and relative (ppm).
      The source does not validate them; most guarantees need `NonNegative`. */
  datatype Config = Config(mzTol: real, ppmTol: real) {

    predicate NonNegative() {
      0.0 <= mzTol && 0.0 <= ppmTol
    }

    /** Both tolerances of `other` are at least those of this configuration. */
    predicate LooserOrEqual(other: Config) {
      mzTol <= other.mzTol && ppmTol <= other.ppmTol
    }
  }

  /** A Java `double` result that may leave the reals. */
  datatype Double = Finite(v: real) | PositiveInfinity | NegativeInfinity | NaN

  /** The order of doubles other than NaN: -infinity < every finite value
      < +infinity. NaN is comparable to nothing. */
  predicate AtMost(x: Double, y: Double) {
    match (x, y)
    case (NegativeInfinity, _) => !y.NaN?
    case (_, PositiveInfinity) => !x.NaN?
    case (Finite(u), Finite(w)) => u <= w
    case _ => false
  }

  /** `Math.max` on two finite doubles. */
  function Max(a: real, b: real): (m: real)
    ensures a <= m && b <= m
    ensures m == a || m == b
  {
    if a >= b then a else b
  }

  function Min(a: real, b: real): (m: real)
    ensures m <= a && m <= b
    ensures m == a || m == b
  {
    if a <= b then a else b
  }

  function Abs(x: real): (a: real)
    ensures 0.0 <= a
    ensures a == x || a == -x
  {
    if x < 0.0 then -x else x
  }

  /** Java's `a / b` on doubles: division by zero gives an infinity of the
      numerator's sign, and 0.0 / 0.0 gives NaN. */
  function Divide(a: real, b: real): (q: Double)
    ensures b != 0.0 ==> q.Finite? && q.v * b == a
    ensures b == 0.0 ==> !q.Finite?
    ensures b == 0.0 ==> (q.NaN? <==> a == 0.0)
    ensures b == 0.0 ==> (q.PositiveInfinity? <==> 0.0 < a) && (q.NegativeInfinity? <==> a < 0.0)
  {
    if b != 0.0 then Finite(a / b)
    else if a > 0.0 then PositiveInfinity
    else if a < 0.0 then NegativeInfinity
    else NaN
  }

  /** Java's `Math.max(a, b)` for a finite `a`: NaN is contagious, an
      infinity dominates or is dominated. */
  function MaxDouble(a: real, b: Double): (m: Double)
    ensures b.NaN? ==> m.NaN?
    ensures !b.NaN? ==> AtMost(Finite(a), m) && AtMost(b, m)
    ensures !b.NaN? ==> m == Finite(a) || m == b
  {
    match b
    case Finite(x) => Finite(Max(a, x))
    case PositiveInfinity => PositiveInfinity
    case NegativeInfinity => Finite(a)
    case NaN => NaN
  }

  /** The relative tolerance expressed in m/z at the value mz. */
  function PpmToMz(mz: real, ppm: real): real {
    mz / Million * ppm
  }

  /** getMzToleranceForMass: the effective half-width of the window at mz,
      the wider of the absolute tolerance and the ppm tolerance at mz. */
  function MzToleranceForMass(c: Config, mz: real): (t: real)
    ensures c.mzTol <= t && PpmToMz(mz, c.ppmTol) <= t
    ensures t == c.mzTol || t == PpmToMz(mz, c.ppmTol)
    ensures c.NonNegative() ==> 0.0 <= t
  {
    Max(c.mzTol, PpmToMz(mz, c.ppmTol))
  }

  /** getPpmToleranceForMass: the same window seen as a relative tolerance,
      the wider of the ppm tolerance and the absolute tolerance in ppm of mz.
      At mz == 0 the Java division yields an infinity or NaN. */
  function PpmToleranceForMass(c: Config, mz: real): (p: Double)
    ensures mz != 0.0 ==> p.Finite?
    ensures mz != 0.0 ==> c.ppmTol <= p.v && c.mzTol / (mz / Million) <= p.v
    ensures mz != 0.0 ==> p.v == c.ppmTol || p.v == c.mzTol / (mz / Million)
    ensures mz == 0.0 ==> (p.PositiveInfinity? <==> 0.0 < c.mzTol)
    ensures mz == 0.0 ==> (p.NaN? <==> c.mzTol == 0.0)
    ensures mz == 0.0 && c.mzTol < 0.0 ==> p == Finite(c.ppmTol)
  {
    MaxDouble(c.ppmTol, Divide(c.mzTol, mz / Million))
  }

  /** getToleranceRange(double): the closed window [mz - t, mz + t] with
      t = MzToleranceForMass(c, mz); `Range.closed` fails when t < 0. */
  function ToleranceRange(c: Config, mz: real): (r: Result<Interval>)
    ensures r.Success? <==> 0.0 <= MzToleranceForMass(c, mz)
    ensures c.NonNegative() ==> r.Success?
    ensures r.Success? ==> r.value.Valid() && r.value.Contains(mz)
    ensures r.Success? ==> mz - r.value.lo == MzToleranceForMass(c, mz)
                           && r.value.hi - mz == MzToleranceForMass(c, mz)
    ensures r.Failure? ==> r.error.lower > mz > r.error.upper
  {
    var t := MzToleranceForMass(c, mz);
    Closed(mz - t, mz + t)
  }

  /** getToleranceRange(Range): each endpoint of the range is widened by the
      tolerance computed at that endpoint. */
  function ToleranceRangeForRange(c: Config, range: Interval): (r: Result<Interval>)
    requires range.Valid()
    ensures r.Success? <==> range.lo - MzToleranceForMass(c, range.lo) <= range.hi + MzToleranceForMass(c, range.hi)
    ensures c.NonNegative() ==> r.Success? && r.value.Encloses(range)
    ensures r.Success? ==> r.value.Valid()
  {
    Closed(range.lo - MzToleranceForMass(c, range.lo),
           range.hi + MzToleranceForMass(c, range.hi))
  }

  /** checkWithinTolerance: does mz2 lie in the tolerance window of mz1?
      The window is that of mz1 only, so the test is not symmetric. */
  function CheckWithinTolerance(c: Config, mz1: real, mz2: real): (r: Result<bool>)
    ensures r.Success? <==> 0.0 <= MzToleranceForMass(c, mz1)
    ensures c.NonNegative() ==> r.Success?
    ensures r.Success? ==> (r.value <==> Abs(mz2 - mz1) <= MzToleranceForMass(c, mz1))
  {
    match ToleranceRange(c, mz1)
    case Success(window) => Success(window.Contains(mz2))
    case Failure(e) => Failure(e)
  }
}
