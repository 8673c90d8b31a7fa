# Bounds: closed intervals over vectors

This project models `Bounds` in judo's data structures (`judo/data_structures/bounds.py`).
A `Bounds` pairs a vector of upper limits (`high`) with a vector of lower limits
(`low`) of the same length, and caches their coordinate-wise difference (the span,
`_bounds_dist` in the code). Once a `Bounds` is built it is never changed:
`safe_margin`, `from_array` and `from_tuples` return new instances. The model is
therefore a value: `BoundsCore.Bounds(high, low, span)` together with the predicate
`BoundsCore.Valid`, which says that the three vectors have the same length and that
`span = high - low`.

The model has six modules.

- `Results` (`results.dfy`): `Option` and `Result`.
- `Numeric` (`numeric.dfy`): minimum, maximum and absolute value on reals. It also
  defines numpy's floored `mod` (`FloorMod`, whose result has the sign of the
  divisor) and small multiplication lemmas.
- `BoundsCore` (`bounds.dfy`): the value, construction (`__init__`), `__len__`,
  `to_tuples` and `from_tuples`. `from_tuples` is a method with a loop, because the
  source builds its two lists by appending to them.
  - A limit passed to the constructor is a `Limit`. `Scalar` is a Python number;
    `List` is an iterable with no `.shape`; `Array` is a tensor with a `.shape`.
  - Construction returns a `Result`. The errors are the `TypeError` raised when no
    shape can be inferred, and the shape mismatch that numpy raises when `high - low`
    is computed on vectors of different lengths.
- `Clipping` (`clipping.dfy`): `clip`, `contains` and `points_in_bounds`. They work
  on one point (`Vector`) or on a matrix whose rows are points (`Matrix`).
- `Scaling` (`scaling.dfy`): `get_scaled_intervals`, `from_array` and `safe_margin`.
  - `from_array` takes the minimum and maximum of each column, scales them, and
    fails on an empty array, where numpy cannot reduce over an empty axis.
  - Each branch of the scaling's `where` is modelled as written. This includes the
    `scale <= 1` branch, which multiplies `low` by the small factor whatever its sign.
- `Periodic` (`periodic.dfy`): `pbc` and `pbc_distance` as written. It also has
  `Wrap`, a corrected periodic wrap (see Findings).

Numbers are mathematical reals. The scaling functions state their results
through `Numeric.Mul`, a function for the product of two reals, so that proofs
can treat each product as a single term; their bodies multiply directly.

Two behaviours of the code are worth stating on their own.

- The `from_array` docstring example (bounds.py:207-208) overwrites only the
  centre element of a 3×3 array of ones with -5. Its column minima are
  therefore `[1, -5, 1]` (`Scaling.FromArrayExample`).
- A plain Python list has no `.shape`. So a constructor call whose only
  non-scalar limit is a list, and which passes no `shape`, raises the
  `TypeError` (bounds.py:64-69; `BoundsCore.NewExamples`, last case).

## Model

| member | source | states |
|---|---|---|
| BoundsCore.ResolveShape | judo/data_structures/bounds.py:63-69 | an explicit shape wins, then the shape of an array `high`, then that of an array `low`; no shape exactly when none of the three is available |
| BoundsCore.Materialize | judo/data_structures/bounds.py:71-74 | a scalar limit becomes a vector of the inferred length with every coordinate equal to it; an iterable or tensor limit is kept as given |
| BoundsCore.New | judo/data_structures/bounds.py:63-85 | fails with the shape error exactly when no shape is given and neither limit is an array; a success is well formed (`high`, `low` and span have one length and span = high - low); scalars are broadcast to the shape and vectors are kept; given a resolvable shape, construction succeeds exactly when the broadcast limits have equal lengths (a scalar takes the shape's length, a vector keeps its own); every other failure is the shape mismatch |
| BoundsCore.Difference | judo/data_structures/bounds.py:77 | the span has the limits' length and `low + span = high` coordinate by coordinate |
| BoundsCore.SpanIsDifference | judo/data_structures/bounds.py:77 | in well-formed bounds the cached span is the coordinate-wise difference of the limits |
| BoundsCore.NewFromArrays | judo/data_structures/bounds.py:63-77 | two arrays of equal length always make bounds with exactly those limits |
| BoundsCore.NewExamples | judo/data_structures/bounds.py:45-60 | the documented examples: two arrays of length 3; scalars 4 and 2.1 with shape (5,) broadcast to 5 coordinates; a list without a shape is refused |
| BoundsCore.Len | judo/data_structures/bounds.py:96-98 | the number of dimensions is the common length of the limits and the span |
| BoundsCore.ToTuples | judo/data_structures/bounds.py:316-332 | pair k is `(low[k], high[k])`, and there are as many pairs as the shorter limit has coordinates, as `zip` gives |
| BoundsCore.FromTuples | judo/data_structures/bounds.py:115-139 | the result is well formed; its `low` is the first component of each pair, in order, and its `high` the second; `to_tuples` of it gives back the pairs |
| BoundsCore.TuplesOfPairs | judo/data_structures/bounds.py:134-139 | limits taken from the components of a sequence of pairs turn back into exactly those pairs |
| BoundsCore.PairsOfTuples | judo/data_structures/bounds.py:332 | splitting the pairs of `to_tuples` gives back `low` and `high` (the inverse direction of the round trip) |
| BoundsCore.FromTuplesExample | judo/data_structures/bounds.py:127-131 | the documented example splits `((-1, 1), (-2, 1), (2, 3))` into low `[-1, -2, 2]` and high `[1, 1, 3]` |
| BoundsCore.ToTuplesExample | judo/data_structures/bounds.py:325-329 | the documented example: limits `[1, 2, 5]` and their negation give `((-1, 1), (-2, 2), (-5, 5))` |
| Clipping.Clip | judo/data_structures/bounds.py:218-229 | the length is kept; where `low <= high`, every result lies in `[low, high]`; a coordinate already inside is unchanged; one below `low` becomes `low` and one above `high` becomes `high`; where `high < low` (numpy's `clip` takes the upper limit) the coordinate becomes `high` |
| Clipping.ClipIdempotent | judo/data_structures/bounds.py:229 | clipping twice is clipping once |
| Clipping.ClipWithin | judo/data_structures/bounds.py:226-229 | for ordered bounds a clipped point is inside the bounds, and clipping leaves a point unchanged exactly when it is inside |
| Clipping.Contains | judo/data_structures/bounds.py:266-281 | one point gives one boolean and a matrix gives one boolean per row; a point or row counts exactly when clipping leaves it unchanged, which for ordered bounds is exactly when every coordinate lies in `[low, high]` |
| Clipping.ContainsAnyBounds | judo/data_structures/bounds.py:280-281 | for any bounds, a point is contained exactly when each coordinate lies in `[low, high]`, or its interval is inverted and the coordinate equals `high` |
| Clipping.ContainsClip | judo/data_structures/bounds.py:280-281 | for ordered bounds, a clipped point is always contained |
| Clipping.PointsInBounds | judo/data_structures/bounds.py:341-356 | the same shape and per-row membership as `contains`, for ordered bounds |
| Clipping.PointsInBoundsIsContains | judo/data_structures/bounds.py:355-356 | `points_in_bounds` and `contains` agree on every input |
| Scaling.Grow | judo/data_structures/bounds.py:172-173 | the enlarging factor `1 + abs(scale - 1)` is at least 1 |
| Scaling.Shrink | judo/data_structures/bounds.py:172-174 | the reducing factor is at most 1, and it mirrors the enlarging factor around 1 |
| Scaling.ScaleLow | judo/data_structures/bounds.py:176-180 | when scale > 1 a negative lower limit is multiplied by the enlarging factor and any other lower limit by the reducing one; when scale <= 1 every lower limit is multiplied by the reducing factor |
| Scaling.ScaleHigh | judo/data_structures/bounds.py:176-181 | an upper limit is multiplied by the enlarging factor when either scale > 1 and it is non-negative, or scale <= 1 and it is negative; otherwise by the reducing factor |
| Scaling.ScaledIntervals | judo/data_structures/bounds.py:146-182 | the scaled lower and upper vectors keep the lengths of their inputs |
| Scaling.ScaleOneIsIdentity | judo/data_structures/bounds.py:172-182 | scale 1 leaves both limits unchanged |
| Scaling.ScaleUpLimit | judo/data_structures/bounds.py:176-178 | with scale >= 1 a limit scaled as a lower limit does not rise, and one scaled as an upper limit does not fall |
| Scaling.ScaleDownLimit | judo/data_structures/bounds.py:179-181 | with scale <= 1 an upper limit does not rise; a non-negative lower limit does not rise and a negative one does not fall |
| Scaling.ScaleUpWidens | judo/data_structures/bounds.py:176-178 | with scale >= 1 every scaled lower limit is at most the original and every scaled upper limit at least the original, so the interval never narrows |
| Scaling.ScaleDownLowers | judo/data_structures/bounds.py:179-181 | with scale <= 1 no upper limit rises; no non-negative lower limit rises, and no negative one falls |
| Scaling.ColumnMin | judo/data_structures/bounds.py:214 | the column minimum is at most every entry of its column among the rows considered |
| Scaling.ColumnMax | judo/data_structures/bounds.py:214 | the column maximum is at least every entry of its column among the rows considered |
| Scaling.ColumnMins | judo/data_structures/bounds.py:214 | `min(x, axis=0)`: one entry per column, each at most every entry of its column |
| Scaling.ColumnMaxes | judo/data_structures/bounds.py:214 | `max(x, axis=0)`: one entry per column, each at least every entry of its column |
| Scaling.ColumnExtremesAttained | judo/data_structures/bounds.py:214 | the column minimum and maximum are entries of the column |
| Scaling.FromArray | judo/data_structures/bounds.py:184-216 | fails exactly on an empty array, where the reduction has nothing to reduce; otherwise gives well-formed bounds with one dimension per column |
| Scaling.FromArrayLimits | judo/data_structures/bounds.py:214-216 | the bounds' limits are the column minima and maxima, scaled |
| Scaling.FromArrayTight | judo/data_structures/bounds.py:214-216 | with scale 1 on a non-empty array, `from_array` succeeds and each column's low and high bound every entry of that column and are each attained by some row |
| Scaling.FromArrayContainsRows | judo/data_structures/bounds.py:214-216 | with scale >= 1 every row of the array lies inside the bounds built from it |
| Scaling.FromArrayExample | judo/data_structures/bounds.py:205-211 | the documented example with scale 1.5 gives low `[0.5, -7.5, 0.5]` and high `[1.5, 1.5, 1.5]` |
| Scaling.SafeMargin | judo/data_structures/bounds.py:283-314 | uses the given limits or else its own; succeeds exactly when the chosen limits have equal lengths and otherwise reports the shape mismatch; without overrides it keeps its dimension; without overrides and with scale 1 it returns bounds equal to itself; on success the new `low` and `high` are the chosen limits scaled by `get_scaled_intervals` |
| Scaling.SafeMarginOverridesWiden | judo/data_structures/bounds.py:311-314 | with overriding limits of equal length and scale >= 1, construction succeeds and every point between the overrides lies inside the new bounds |
| Scaling.SafeMarginWidens | judo/data_structures/bounds.py:311-314 | with scale >= 1 and no overrides, every point inside the original bounds is inside the new ones |
| Numeric.FloorMod | judo/data_structures/bounds.py:244-245 | numpy's `mod` with a non-zero divisor: the remainder lies in `[0, y)` for a positive divisor and in `(y, 0]` for a negative one |
| Numeric.FloorModMultiple | judo/data_structures/bounds.py:244-245 | the dividend minus the remainder is an integer multiple of the divisor |
| Numeric.FloorModOfSmall | judo/data_structures/bounds.py:244-245 | a dividend already in `[0, y)` is its own remainder |
| Periodic.FirstPass | judo/data_structures/bounds.py:244 | a coordinate below `high` is kept; one at or above a positive `high` lands in `[low, low + high)`, and one at or above a negative `high` in `(low + high, low]` |
| Periodic.Pbc | judo/data_structures/bounds.py:231-246 | the length is kept, and a coordinate strictly between `low` and `high` is unchanged |
| Periodic.ZeroLowCoordinate | judo/data_structures/bounds.py:244-245 | with `low = 0 < high`, a coordinate is defined exactly when it is positive and, if it is at or above `high`, not a multiple of `high`; after the first pass it lies strictly inside `(0, high)` |
| Periodic.PbcZeroLowInside | judo/data_structures/bounds.py:244-245 | with `low = 0 < high` in every dimension, `pbc` puts every defined coordinate strictly inside `(0, high)` |
| Periodic.PbcExample | judo/data_structures/bounds.py:244 | in `[0, 10]` the coordinate 11 wraps to 1 |
| Periodic.PbcEscapesBounds | judo/data_structures/bounds.py:240-245 | in `[-10, 10]` the code maps -13 to 13, which is not inside the bounds; the corrected wrap gives 7 |
| Periodic.PbcEscapesAbove | judo/data_structures/bounds.py:244-245 | in `[2, 10]` the code maps 19 to 11, which is not inside the bounds; the corrected wrap gives 3 |
| Periodic.PbcBoundaryUndefined | judo/data_structures/bounds.py:244-245 | in `[0, 10]` both ends of the closed interval make the second pass take `mod` by zero; the corrected wrap sends both to 0 |
| Periodic.Wrap | judo/data_structures/bounds.py:233-240 | corrected periodic wrap: for each interval with `low < high` the result lies in `[low, high)` |
| Periodic.WrapIsPeriodic | judo/data_structures/bounds.py:233-240 | the corrected wrap moves each coordinate by a whole number of spans, and leaves a coordinate already in `[low, high)` unchanged |
| Periodic.PbcDistance | judo/data_structures/bounds.py:248-264 | the distance is `abs(x - y)`, minus the span exactly where `x` exceeds half the span |
| Periodic.PbcDistanceBounded | judo/data_structures/bounds.py:261-264 | for ordered bounds and two points inside them, every coordinate of the distance lies in `[-span, span]` |
| Periodic.PbcDistanceTestsX | judo/data_structures/bounds.py:263 | the span is subtracted according to `x` alone: in `[0, 10]`, `(9, 1)` gives -2 but `(1, 9)` gives 8 |

## Left out

- Data types: `dtype` inference and the casts done by `astype` (bounds.py:75-85, 229, 243, 261, 280) are not modelled. Every number is a mathematical real. The `dtype` attribute, integer truncation, IEEE rounding, infinities and NaN are not represented.
- Default limits: the default infinite limits of the constructor are not modelled, because reals have no infinity. Callers always pass both limits.
- BoundsCore.New: vectors of different lengths are reported as a shape mismatch. numpy would broadcast a length-1 vector against a longer one, and the model does not.
- BoundsCore.New: bounds are one-dimensional vectors. Shapes of rank greater than one and the `shape` property (bounds.py:103-112) are not modelled beyond `Len`.
- Clipping.Clip: the point must have the bounds' length. Broadcasting a scalar or a shorter point against the limits is not modelled.
- Clipping.Contains: only one point or a matrix of points is modelled. Arrays of rank three or more, which `match.all(1).flatten()` also accepts, are not.
- `__contains__` (bounds.py:100-101) forwards to `contains` and has no member of its own. `__repr__` is formatting only.
- Scaling.SafeMargin: overrides are whole vectors. Scalar overrides are not modelled; on those, `get_scaled_intervals` reads the override's `dtype`.
- Scaling.FromArray: the array must be two-dimensional and rectangular. A one-dimensional array, which numpy reduces to scalars, is not modelled.
- Periodic.Pbc: a coordinate for which the code takes `mod` by a zero limit is excluded by precondition (`PbcDefined`). numpy returns NaN there with a warning.
- `from_space` and `to_space` (bounds.py:141-144, 334-339) convert to and from gym spaces, which are not part of this model.
- The tensor backend dispatch behind `API` and `judo.tensor` is not part of this model. The model uses its numpy semantics.

## Findings

| source | as written | input that shows it | evidently intended | confidence | as-written member | corrected member |
|---|---|---|---|---|---|---|
| judo/data_structures/bounds.py:244-245 | a coordinate at or above `high` becomes `(x mod high) + low`, and one at or below `low` becomes `high - (x mod low)` | bounds low = -10, high = 10 and x = -13: the second pass gives 10 - ((-13) mod (-10)) = 10 - (-3) = 13, which is outside `[-10, 10]` although the docstring (line 240) promises a result inside the bounds | wrap periodically by the span: `low + ((x - low) mod (high - low))`, which gives 7 | high for the arithmetic, not executed | Periodic.PbcEscapesBounds | Periodic.Wrap |
| judo/data_structures/bounds.py:244 | a coordinate at or above `high` becomes `(x mod high) + low`, which can lie above `high` when `low > 0` | bounds low = 2, high = 10 and x = 19: the first pass gives 9 + 2 = 11, the second keeps it (11 > 2), and 11 is outside `[2, 10]` | wrap by the span: `low + ((x - low) mod (high - low))`, which gives 3 | high for the arithmetic, not executed | Periodic.PbcEscapesAbove | Periodic.Wrap |
| judo/data_structures/bounds.py:244-245 | with `low = 0`, a coordinate equal to `low`, or one the first pass sends to 0 (such as `x = high`), reaches `mod(0, 0)` in the second pass, which numpy evaluates to NaN | bounds low = 0, high = 10 and x = 0 or x = 10: both ends of the closed interval the docstring (lines 233-234) names give NaN | a point of the closed interval stays a number inside the bounds; the wrap sends both ends to 0 | high for the arithmetic, not executed | Periodic.PbcBoundaryUndefined | Periodic.Wrap |
