/** Properties of the maximum m/z tolerance that relate several calls:
    inclusiveness, (a)symmetry, the duality of the absolute and ppm views,
    monotonicity in the configuration, and what the widened range covers.
 */
module ToleranceProperties {
  import opened Intervals
  import opened MaximumMZTolerance

  /** mz2 is accepted as a match of mz1. */
  predicate Within(c: Config, mz1: real, mz2: real) {
    CheckWithinTolerance(c, mz1, mz2) == Success(true)
  }

  /** The window of a value always accepts the value itself. */
  lemma WithinIsReflexive(c: Config, mz: real)
    requires c.NonNegative()
    ensures Within(c, mz, mz)
    ensures ToleranceRange(c, mz).Success? && ToleranceRange(c, mz).value.Contains(mz)
  {
  }

  /** Both edges of the window are accepted; anything beyond them, by any
      positive margin, is rejected. */
  lemma WithinIsInclusive(c: Config, mz: real, eps: real)
    requires c.NonNegative()
    requires 0.0 < eps
    ensures Within(c, mz, mz + MzToleranceForMass(c, mz))
    ensures Within(c, mz, mz - MzToleranceForMass(c, mz))
    ensures CheckWithinTolerance(c, mz, mz + MzToleranceForMass(c, mz) + eps) == Success(false)
    ensures CheckWithinTolerance(c, mz, mz - MzToleranceForMass(c, mz) - eps) == Success(false)
  {
  }

  /** Without a relative tolerance the window has the same width everywhere,
      so the match test is symmetric, whatever the absolute tolerance. */
  lemma SymmetricWithoutPpm(c: Config, mz1: real, mz2: real)
    requires c.ppmTol == 0.0
    ensures CheckWithinTolerance(c, mz1, mz2) == CheckWithinTolerance(c, mz2, mz1)
  {
    assert PpmToMz(mz1, c.ppmTol) == 0.0 == PpmToMz(mz2, c.ppmTol);
    assert MzToleranceForMass(c, mz1) == MzToleranceForMass(c, mz2);
  }

  /** With a relative tolerance the test is not symmetric: at 10 ppm, 1000.0100001
      lies outside the window of 1000.0 (half-width 0.01) while 1000.0 lies
      inside the slightly wider window of 1000.0100001. */
  lemma AsymmetricWithPpm()
    ensures var c := Config(0.0, 10.0);
      && CheckWithinTolerance(c, 1000.0, 1000.0100001) == Success(false)
      && CheckWithinTolerance(c, 1000.0100001, 1000.0) == Success(true)
  {
    var c := Config(0.0, 10.0);
    assert MzToleranceForMass(c, 1000.0) == 0.01;
    assert MzToleranceForMass(c, 1000.0100001) == 0.010000100001;
  }

  /** Widening the one-point range [mz, mz] gives the window of mz. */
  lemma DegenerateRangeIsPointWindow(c: Config, mz: real)
    ensures ToleranceRangeForRange(c, Interval(mz, mz)) == ToleranceRange(c, mz)
  {
  }

  /** For non-negative tolerances each end of the widened range is the
      matching edge of the window computed at that end alone. */
  lemma WidenedRangeEndsAreWindowEdges(c: Config, range: Interval)
    requires c.NonNegative()
    requires range.Valid()
    ensures ToleranceRangeForRange(c, range).Success?
    ensures ToleranceRangeForRange(c, range).value.lo == ToleranceRange(c, range.lo).value.lo
    ensures ToleranceRangeForRange(c, range).value.hi == ToleranceRange(c, range.hi).value.hi
  {
  }

  /** For a positive mass the ppm view and the m/z view describe the same
      window: converting either into the other's unit gives the other. */
  lemma PpmMzDuality(c: Config, mz: real)
    requires 0.0 < mz
    ensures PpmToleranceForMass(c, mz).Finite?
    ensures PpmToleranceForMass(c, mz).v * (mz / Million) == MzToleranceForMass(c, mz)
    ensures MzToleranceForMass(c, mz) / (mz / Million) == PpmToleranceForMass(c, mz).v
  {
    var m := mz / Million;
    var q := c.mzTol / m;
    assert q * m == c.mzTol;
    ScaleMax(c.ppmTol, q, m);
    assert PpmToleranceForMass(c, mz).v == Max(c.ppmTol, q);
    assert Max(c.ppmTol, q) * m == Max(c.ppmTol * m, c.mzTol);
    assert PpmToMz(mz, c.ppmTol) == c.ppmTol * m;
  }

  /** For a negative mass the ppm conversion reverses the order of the two
      terms, so the ppm view converts back to the NARROWER of the two
      m/z tolerances: the views are not dual there. */
  lemma PpmMzDualityNegative(c: Config, mz: real)
    requires mz < 0.0
    ensures PpmToleranceForMass(c, mz).Finite?
    ensures PpmToleranceForMass(c, mz).v * (mz / Million) == Min(c.mzTol, PpmToMz(mz, c.ppmTol))
  {
    var m := mz / Million;
    var q := c.mzTol / m;
    assert q * m == c.mzTol;
    ScaleMaxNegative(c.ppmTol, q, m);
    assert PpmToleranceForMass(c, mz).v == Max(c.ppmTol, q);
    assert PpmToMz(mz, c.ppmTol) == c.ppmTol * m;
  }

  /** Scaling by a positive factor commutes with taking the maximum. */
  lemma ScaleMax(a: real, b: real, m: real)
    requires 0.0 < m
    ensures Max(a, b) * m == Max(a * m, b * m)
  {
    if a >= b {
      assert a * m >= b * m by { MulMonotone(b, a, m); }
    } else {
      assert b * m >= a * m by { MulMonotone(a, b, m); }
    }
  }

  /** Scaling by a negative factor turns the maximum into the minimum. */
  lemma ScaleMaxNegative(a: real, b: real, m: real)
    requires m < 0.0
    ensures Max(a, b) * m == Min(a * m, b * m)
  {
    if a >= b {
      assert a * m - b * m == (a - b) * m <= 0.0;
    } else {
      assert b * m - a * m == (b - a) * m <= 0.0;
    }
  }

  lemma MulMonotone(a: real, b: real, m: real)
    requires a <= b
    requires 0.0 <= m
    ensures a * m <= b * m && m * a <= m * b
  {
    assert (b - a) * m >= 0.0;
  }

  /** With a non-negative ppm tolerance the ppm term grows with the mass. */
  lemma PpmToMzMonotoneInMass(mz: real, mz': real, ppm: real)
    requires mz <= mz'
    requires 0.0 <= ppm
    ensures PpmToMz(mz, ppm) <= PpmToMz(mz', ppm)
  {
    MulMonotone(mz / Million, mz' / Million, ppm);
  }

  /** At a non-negative mass the ppm term grows with the ppm tolerance. */
  lemma PpmToMzMonotoneInPpm(mz: real, ppm: real, ppm': real)
    requires 0.0 <= mz
    requires ppm <= ppm'
    ensures PpmToMz(mz, ppm) <= PpmToMz(mz, ppm')
  {
    MulMonotone(ppm, ppm', mz / Million);
  }

  /** Up to a million ppm, the ppm term grows by at most the growth of the
      mass itself. */
  lemma PpmToMzGrowthBounded(mz: real, mz': real, ppm: real)
    requires mz <= mz'
    requires 0.0 <= ppm <= Million
    ensures PpmToMz(mz', ppm) - PpmToMz(mz, ppm) <= mz' - mz
  {
    var d := (mz' - mz) / Million;
    calc {
      PpmToMz(mz', ppm) - PpmToMz(mz, ppm);
      (mz' / Million - mz / Million) * ppm;
      d * ppm;
    <= { MulMonotone(ppm, Million, d); }
      d * Million;
      mz' - mz;
    }
  }

  /** Loosening either tolerance never narrows the effective half-width, at
      a non-negative mass or for a configuration with non-negative tolerances. */
  lemma MzToleranceMonotone(c: Config, d: Config, mz: real)
    requires c.LooserOrEqual(d)
    requires 0.0 <= mz || c.NonNegative()
    ensures MzToleranceForMass(c, mz) <= MzToleranceForMass(d, mz)
  {
    if 0.0 <= mz {
      PpmToMzMonotoneInPpm(mz, c.ppmTol, d.ppmTol);
    } else {
      assert mz / Million < 0.0;
      MulMonotone(mz / Million, 0.0, c.ppmTol);
    }
  }

  /** The guard of `MzToleranceMonotone` is needed: at a negative mass and with
      a negative absolute tolerance, raising the ppm tolerance from 0 to 1
      narrows the half-width from 0 to -0.000001, and the window vanishes. */
  lemma MzToleranceNotMonotoneAtNegativeMass()
    ensures Config(-1.0, 0.0).LooserOrEqual(Config(-1.0, 1.0))
    ensures MzToleranceForMass(Config(-1.0, 0.0), -1.0) == 0.0
    ensures MzToleranceForMass(Config(-1.0, 1.0), -1.0) == -0.000001
    ensures ToleranceRange(Config(-1.0, 0.0), -1.0).Success?
    ensures ToleranceRange(Config(-1.0, 1.0), -1.0).Failure?
  {
  }

  /** Loosening the configuration never shrinks the window of a value. */
  lemma ToleranceRangeMonotone(c: Config, d: Config, mz: real)
    requires c.LooserOrEqual(d)
    requires 0.0 <= mz || c.NonNegative()
    ensures ToleranceRange(c, mz).Success? ==>
              && ToleranceRange(d, mz).Success?
              && ToleranceRange(d, mz).value.Encloses(ToleranceRange(c, mz).value)
  {
    MzToleranceMonotone(c, d, mz);
  }

  /** Loosening the configuration never turns an accepted match into a
      rejected one. */
  lemma WithinMonotone(c: Config, d: Config, mz1: real, mz2: real)
    requires c.LooserOrEqual(d)
    requires 0.0 <= mz1 || c.NonNegative()
    ensures Within(c, mz1, mz2) ==> Within(d, mz1, mz2)
  {
    MzToleranceMonotone(c, d, mz1);
  }

  /** Loosening the configuration never shrinks a widened range. */
  lemma ToleranceRangeForRangeMonotone(c: Config, d: Config, range: Interval)
    requires range.Valid()
    requires c.LooserOrEqual(d)
    requires 0.0 <= range.lo || c.NonNegative()
    ensures ToleranceRangeForRange(c, range).Success? ==>
              && ToleranceRangeForRange(d, range).Success?
              && ToleranceRangeForRange(d, range).value.Encloses(ToleranceRangeForRange(c, range).value)
  {
    MzToleranceMonotone(c, d, range.lo);
    MzToleranceMonotone(c, d, range.hi);
  }

  /** For non-negative tolerances the upper edge of a window, mz + t(mz),
      never moves down as mz grows; neither does the lower edge, mz - t(mz),
      as long as the ppm tolerance is at most a million ppm (100%). */
  lemma WindowEdgesMonotone(c: Config, a: real, b: real)
    requires c.NonNegative()
    requires a <= b
    ensures a + MzToleranceForMass(c, a) <= b + MzToleranceForMass(c, b)
    ensures c.ppmTol <= Million ==> a - MzToleranceForMass(c, a) <= b - MzToleranceForMass(c, b)
  {
    PpmToMzMonotoneInMass(a, b, c.ppmTol);
    if c.ppmTol <= Million {
      PpmToMzGrowthBounded(a, b, c.ppmTol);
    }
  }

  /** Every value within the window of some point of a range lies in the
      widened range (for tolerances of at most a million ppm). */
  lemma WidenedRangeCoversWindows(c: Config, range: Interval, m: real, x: real)
    requires c.NonNegative() && c.ppmTol <= Million
    requires range.Valid() && range.Contains(m)
    requires Within(c, m, x)
    ensures ToleranceRangeForRange(c, range).Success?
    ensures ToleranceRangeForRange(c, range).value.Contains(x)
  {
    WindowEdgesMonotone(c, range.lo, m);
    WindowEdgesMonotone(c, m, range.hi);
  }

  /** Conversely, every value of the widened range is within the window of
      some point of the range: one of its endpoints, or the value itself. */
  lemma WidenedRangeHasWitness(c: Config, range: Interval, x: real)
    requires c.NonNegative()
    requires range.Valid()
    requires ToleranceRangeForRange(c, range).value.Contains(x)
    ensures exists m :: range.Contains(m) && Within(c, m, x)
  {
    if x < range.lo {
      assert range.Contains(range.lo) && Within(c, range.lo, x);
    } else if x <= range.hi {
      assert range.Contains(x) && Within(c, x, x);
    } else {
      assert range.Contains(range.hi) && Within(c, range.hi, x);
    }
  }

  /** The bound on the ppm tolerance in `WidenedRangeCoversWindows` is needed:
      at 3,000,000 ppm (300%) and no absolute tolerance the window of 2.0
      reaches down to -4.0, below the widened range [-2.0, 8.0] of [1.0, 2.0]. */
  lemma WidenedRangeMissesWindowAboveMillionPpm()
    ensures Within(Config(0.0, 3000000.0), 2.0, -4.0)
    ensures ToleranceRangeForRange(Config(0.0, 3000000.0), Interval(1.0, 2.0)) == Success(Interval(-2.0, 8.0))
  {
  }

  /** Three sample configurations: (0.01 m/z, 5 ppm) at 500, where the
      absolute term wins; (0.001 m/z, 10 ppm) at 1000, where the ppm term
      wins; and (0.01 m/z, 0 ppm) at 0, where the window straddles zero. */
  lemma SampleConfigurations()
    ensures MzToleranceForMass(Config(0.01, 5.0), 500.0) == 0.01
    ensures ToleranceRange(Config(0.01, 5.0), 500.0) == Success(Interval(499.99, 500.01))
    ensures MzToleranceForMass(Config(0.001, 10.0), 1000.0) == 0.01
    ensures ToleranceRange(Config(0.001, 10.0), 1000.0) == Success(Interval(999.99, 1000.01))
    ensures Within(Config(0.001, 10.0), 1000.0, 1000.005)
    ensures CheckWithinTolerance(Config(0.001, 10.0), 1000.0, 1000.02) == Success(false)
    ensures ToleranceRange(Config(0.01, 0.0), 0.0) == Success(Interval(-0.01, 0.01))
  {
  }
}
