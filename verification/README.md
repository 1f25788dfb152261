# MZmine maximum m/z tolerance, in Dafny

This project models `MaximumMZTolerance`, MZmine 2's "maximum of m/z or ppm"
tolerance. The user sets an absolute tolerance in m/z and a relative
tolerance in parts per million (ppm). At a given m/z value, the effective
half-width of the tolerance window is the wider of the two. The class
answers four questions:

- what that half-width is, in m/z (`getMzToleranceForMass`) and in ppm
  (`getPpmToleranceForMass`);
- what the closed window around a single value is (`getToleranceRange(double)`);
- what a range of values becomes once each endpoint is widened by the tolerance
  at that endpoint (`getToleranceRange(Range)`);
- whether a second value falls inside the window of a first (`checkWithinTolerance`).

Layout:

- `intervals.dfy`, module `Intervals`: the closed intervals that the class
  builds with Guava's `Range.closed`, including the `IllegalArgumentException`
  that `Range.closed` throws when the lower bound exceeds the upper. That
  exception is modelled as a `Failure(InvalidRange(lo, hi))` result.
- `maximum_mz_tolerance.dfy`, module `MaximumMZTolerance`: the configuration
  record `Config(mzTol, ppmTol)` and the five operations as pure functions
  over `real`. It also models Java's double division by zero and the `Math.max`
  that consumes its result (`Double`, `Divide`, `MaxDouble`).
- `tolerance_properties.dfy`, module `ToleranceProperties`: the lemmas that
  relate the operations to one another.

Arithmetic is exact real arithmetic. The source does not validate the
tolerances, so the operations accept any configuration. Negative tolerances
can make the window empty, and then the range operations return the Guava
error. Most guarantees are stated for `Config.NonNegative()`.

Some guards turned out to be necessary, and each has a concrete counterexample:

- The match test is symmetric when the ppm tolerance is 0, but not in general.
- Monotonicity in the configuration needs a non-negative mass or non-negative
  tolerances.
- The widened range covers the window of every point of the range only up to
  1,000,000 ppm.

## Model

| member | source | states |
|---|---|---|
| Intervals.Closed | src/main/java/net/sf/mzmine/parameters/parametertypes/tolerances/MaximumMZTolerance.java:66-67 | `Range.closed(lo, hi)` yields the interval with those endpoints exactly when lo <= hi, and otherwise the invalid-range error carrying both bounds |
| MaximumMZTolerance.MzToleranceForMass | src/main/java/net/sf/mzmine/parameters/parametertypes/tolerances/MaximumMZTolerance.java:55-57 | the effective half-width is at least the absolute tolerance and at least the ppm tolerance converted at mz, equals one of them, and is non-negative for non-negative tolerances |
| MaximumMZTolerance.Divide | src/main/java/net/sf/mzmine/parameters/parametertypes/tolerances/MaximumMZTolerance.java:60 | Java double division: for a non-zero divisor the quotient times the divisor gives back the dividend; dividing by zero gives +infinity for a positive dividend, -infinity for a negative one and NaN for 0 |
| MaximumMZTolerance.MaxDouble | src/main/java/net/sf/mzmine/parameters/parametertypes/tolerances/MaximumMZTolerance.java:60 | `Math.max` of a finite value and a double: NaN in gives NaN out; otherwise the result is one of the two arguments and is at least both of them, in the order -infinity < finite values < +infinity |
| MaximumMZTolerance.PpmToleranceForMass | src/main/java/net/sf/mzmine/parameters/parametertypes/tolerances/MaximumMZTolerance.java:59-61 | for mz != 0, a finite value (in exact arithmetic) that is at least the ppm tolerance and at least the absolute tolerance in ppm of mz, and equal to one of them; at mz == 0 it is +infinity for a positive absolute tolerance, NaN for a zero one, and the ppm tolerance for a negative one |
| MaximumMZTolerance.ToleranceRange | src/main/java/net/sf/mzmine/parameters/parametertypes/tolerances/MaximumMZTolerance.java:63-68 | the window exists exactly when the half-width is non-negative, which is always the case for non-negative tolerances; it contains mz and reaches the half-width to either side; when it fails, the rejected bounds lie on the wrong sides of mz |
| MaximumMZTolerance.ToleranceRangeForRange | src/main/java/net/sf/mzmine/parameters/parametertypes/tolerances/MaximumMZTolerance.java:70-77 | the widened range exists exactly when the lower end widened by its own tolerance stays at or below the upper end widened by its own; for non-negative tolerances it always exists and encloses the input range |
| MaximumMZTolerance.CheckWithinTolerance | src/main/java/net/sf/mzmine/parameters/parametertypes/tolerances/MaximumMZTolerance.java:79-82 | the test fails only when the window of mz1 cannot be built; otherwise it holds exactly when the distance from mz1 to mz2 is at most the half-width at mz1 |
| ToleranceProperties.WithinIsReflexive | src/main/java/net/sf/mzmine/parameters/parametertypes/tolerances/MaximumMZTolerance.java:79-82 | for non-negative tolerances every value matches itself |
| ToleranceProperties.WithinIsInclusive | src/main/java/net/sf/mzmine/parameters/parametertypes/tolerances/MaximumMZTolerance.java:63-82 | both edges of the window match, and any value beyond an edge by a positive margin does not |
| ToleranceProperties.SymmetricWithoutPpm | src/main/java/net/sf/mzmine/parameters/parametertypes/tolerances/MaximumMZTolerance.java:55-57 | with a zero ppm tolerance, checking mz1 against mz2 gives the same outcome as checking mz2 against mz1, for any absolute tolerance |
| ToleranceProperties.AsymmetricWithPpm | src/main/java/net/sf/mzmine/parameters/parametertypes/tolerances/MaximumMZTolerance.java:79-82 | at 10 ppm, 1000.0100001 does not match 1000.0, but 1000.0 matches 1000.0100001 |
| ToleranceProperties.DegenerateRangeIsPointWindow | src/main/java/net/sf/mzmine/parameters/parametertypes/tolerances/MaximumMZTolerance.java:63-77 | widening the one-point range [mz, mz] gives the same result as the window of mz, including its failures |
| ToleranceProperties.WidenedRangeEndsAreWindowEdges | src/main/java/net/sf/mzmine/parameters/parametertypes/tolerances/MaximumMZTolerance.java:70-77 | each end of the widened range is the matching edge of the window computed at that endpoint alone |
| ToleranceProperties.PpmMzDuality | src/main/java/net/sf/mzmine/parameters/parametertypes/tolerances/MaximumMZTolerance.java:55-61 | for mz > 0, the ppm view times mz / 1e6 is the m/z view, and the m/z view divided by mz / 1e6 is the ppm view |
| ToleranceProperties.PpmMzDualityNegative | src/main/java/net/sf/mzmine/parameters/parametertypes/tolerances/MaximumMZTolerance.java:55-61 | for mz < 0, the ppm view converts back to the smaller of the two m/z terms, so the two views are not dual there |
| ToleranceProperties.PpmToMzMonotoneInMass | src/main/java/net/sf/mzmine/parameters/parametertypes/tolerances/MaximumMZTolerance.java:56 | for a non-negative ppm tolerance, the ppm term never decreases as the mass grows |
| ToleranceProperties.PpmToMzMonotoneInPpm | src/main/java/net/sf/mzmine/parameters/parametertypes/tolerances/MaximumMZTolerance.java:56 | at a non-negative mass, the ppm term never decreases as the ppm tolerance grows |
| ToleranceProperties.PpmToMzGrowthBounded | src/main/java/net/sf/mzmine/parameters/parametertypes/tolerances/MaximumMZTolerance.java:56 | up to 1e6 ppm, the ppm term grows by no more than the mass does |
| ToleranceProperties.MzToleranceMonotone | src/main/java/net/sf/mzmine/parameters/parametertypes/tolerances/MaximumMZTolerance.java:55-57 | raising either tolerance never narrows the half-width, either at a non-negative mass or with non-negative starting tolerances |
| ToleranceProperties.MzToleranceNotMonotoneAtNegativeMass | src/main/java/net/sf/mzmine/parameters/parametertypes/tolerances/MaximumMZTolerance.java:55-68 | without that guard, monotonicity fails: at mass -1 with absolute tolerance -1, raising ppm from 0 to 1 makes the half-width negative and the window fail |
| ToleranceProperties.ToleranceRangeMonotone | src/main/java/net/sf/mzmine/parameters/parametertypes/tolerances/MaximumMZTolerance.java:63-68 | under the same guard, a looser configuration's window exists whenever the tighter one's does, and encloses it |
| ToleranceProperties.WithinMonotone | src/main/java/net/sf/mzmine/parameters/parametertypes/tolerances/MaximumMZTolerance.java:79-82 | under the same guard, a match under a configuration stays a match under any looser one |
| ToleranceProperties.ToleranceRangeForRangeMonotone | src/main/java/net/sf/mzmine/parameters/parametertypes/tolerances/MaximumMZTolerance.java:70-77 | under the same guard, a looser configuration's widened range exists whenever the tighter one's does, and encloses it |
| ToleranceProperties.WindowEdgesMonotone | src/main/java/net/sf/mzmine/parameters/parametertypes/tolerances/MaximumMZTolerance.java:63-68 | for non-negative tolerances, the upper window edge mz + t(mz) never decreases in mz; the lower edge mz - t(mz) never decreases either, up to 1e6 ppm |
| ToleranceProperties.WidenedRangeCoversWindows | src/main/java/net/sf/mzmine/parameters/parametertypes/tolerances/MaximumMZTolerance.java:70-82 | up to 1e6 ppm, every value that matches some point of a range lies in the widened range |
| ToleranceProperties.WidenedRangeHasWitness | src/main/java/net/sf/mzmine/parameters/parametertypes/tolerances/MaximumMZTolerance.java:70-82 | for non-negative tolerances, every value of the widened range matches some point of the range; together with `WidenedRangeCoversWindows` the widened range is exactly the union of the windows of its points when the ppm tolerance is at most 1e6 |
| ToleranceProperties.WidenedRangeMissesWindowAboveMillionPpm | src/main/java/net/sf/mzmine/parameters/parametertypes/tolerances/MaximumMZTolerance.java:70-82 | above 1e6 ppm the covering fails: at 3e6 ppm, -4.0 matches 2.0 but lies outside [-2.0, 8.0], the widened range of [1.0, 2.0] |
| ToleranceProperties.SampleConfigurations | src/main/java/net/sf/mzmine/parameters/parametertypes/tolerances/MaximumMZTolerance.java:55-82 | three sample configurations: (0.01 m/z, 5 ppm) at 500 gives [499.99, 500.01]; (0.001 m/z, 10 ppm) at 1000 gives [999.99, 1000.01], accepting 1000.005 and rejecting 1000.02; (0.01 m/z, 0 ppm) at 0 gives [-0.01, 0.01] |

## Left out

- IEEE-754 rounding. All arithmetic is exact over `real`. The division by
  zero in `getPpmToleranceForMass` is kept, because it changes the kind of
  result rather than its rounding. Signed zeros (`-0.0`), underflow of
  `mz / 1e6` to zero, overflow of `mzTol / (mz / 1e6)` to +infinity for a
  tiny non-zero mz, and NaN or infinite inputs and tolerances are not modelled.
- PpmToleranceForMass: promises a finite result for every non-zero mz. For an
  mz so close to zero that `mzTol / (mz / 1e6)` exceeds the largest double
  (about 1.8e308; e.g. mzTol 0.01 and mz 1e-306), Java returns +infinity
  instead, because the quotient overflows. The model keeps the exact quotient.
- The two tolerances are held in `static` `DoubleParameter` fields, shared by
  all instances (lines 38-41). They are modelled as one immutable `Config`
  value passed to every operation. The parameter UI binding and the getters
  `getMzTolerance`/`getPpmTolerance` (lines 47-53) are left out. The getters
  only read those fields.
- The `MZTolerance` superclass and the `Parameter` machinery are not part of
  this model.
- `ToleranceRangeForRange` takes a closed interval. A Guava range without a
  lower or upper bound makes `lowerEndpoint()`/`upperEndpoint()` throw, and
  that case is not modelled. Open and half-open input ranges give the same
  result as closed ones, since only their endpoints are read.
- ToleranceRangeForRange: its contract states when the widened range exists
  but does not restate the endpoint formula. For non-negative tolerances,
  `WidenedRangeEndsAreWindowEdges` states the formula. For every configuration,
  `DegenerateRangeIsPointWindow` covers the one-point range.
- `toString` (lines 84-87) returns a fixed label and is not modelled.
- The peak-list popup menu and the isotope grouper module in the same source
  tree are user-interface wiring, and they are not part of this model.
