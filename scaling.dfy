/**
 * Scaled intervals and the constructors built on them (`from_array`,
 * `safe_margin`).
 *
 * With pct = scale - 1, a limit is multiplied by Grow = 1 + |pct| or by
 * Shrink = 1 - |pct|, chosen by the sign of pct and of the limit: the scaling
 * is relative to zero, not to the middle of the interval. For pct <= 0 the
 * low limit is multiplied by Shrink whatever its sign.
 */
module Scaling {
  import opened Numeric
  import opened Results
  import opened BoundsCore

  function Grow(scale: real): (g: real)
    ensures 1.0 <= g
  {
    1.0 + Abs(scale - 1.0)
  }

  function Shrink(scale: real): (s: real)
    ensures s <= 1.0
    ensures s + Grow(scale) == 2.0
  {
    1.0 - Abs(scale - 1.0)
  }

  /** The first `where` of `get_scaled_intervals`, for one low limit. */
  function ScaleLow(low: real, scale: real): (r: real)
    ensures r == Mul(low, if scale > 1.0 && low < 0.0 then Grow(scale) else Shrink(scale))
  {
    var pct := scale - 1.0;
    var big := 1.0 + Abs(pct);
    var small := 1.0 - Abs(pct);
    if pct > 0.0 then (if low < 0.0 then low * big else low * small)
    else (if low < 0.0 then low * small else low * small)
  }

  /** The second `where` of `get_scaled_intervals`, for one high limit. */
  function ScaleHigh(high: real, scale: real): (r: real)
    ensures r == Mul(high, if (scale > 1.0) == (0.0 <= high) then Grow(scale) else Shrink(scale))
  {
    var pct := scale - 1.0;
    var big := 1.0 + Abs(pct);
    var small := 1.0 - Abs(pct);
    if pct > 0.0 then (if high < 0.0 then high * small else high * big)
    else (if high < 0.0 then high * big else high * small)
  }

  /** `get_scaled_intervals`: every limit scaled on its own. */
  function ScaledIntervals(low: seq<real>, high: seq<real>, scale: real): (r: (seq<real>, seq<real>))
    ensures |r.0| == |low| && |r.1| == |high|
  {
    (seq(|low|, i requires 0 <= i < |low| => ScaleLow(low[i], scale)),
     seq(|high|, i requires 0 <= i < |high| => ScaleHigh(high[i], scale)))
  }

  /** A scale of one leaves both limits as they are. */
  lemma ScaleOneIsIdentity(low: seq<real>, high: seq<real>)
    ensures ScaledIntervals(low, high, 1.0) == (low, high)
  {
    var r := ScaledIntervals(low, high, 1.0);
    assert r.0 == low;
    assert r.1 == high;
  }

  /** Multiplying by a factor of at least one moves a value away from zero. */
  lemma MulAwayFromZero(v: real, g: real)
    requires 1.0 <= g
    ensures v < 0.0 ==> Mul(v, g) <= v
    ensures 0.0 <= v ==> v <= Mul(v, g)
  {
    Distribute(g, 1.0, v);
    SignOfProduct(g - 1.0, v);
    SignOfProduct(g - 1.0, -v);
    Negate(g - 1.0, v);
    Negate(g, v);
  }

  /** Multiplying by a factor of at most one moves a value towards zero, or past it. */
  lemma MulTowardZero(v: real, s: real)
    requires s <= 1.0
    ensures v < 0.0 ==> v <= Mul(v, s)
    ensures 0.0 <= v ==> Mul(v, s) <= v
  {
    Distribute(1.0, s, v);
    SignOfProduct(1.0 - s, v);
    SignOfProduct(1.0 - s, -v);
    Negate(1.0 - s, v);
    Negate(s, v);
  }

  /** For scale >= 1 a low limit does not rise and a high limit does not fall. */
  lemma ScaleUpLimit(v: real, scale: real)
    requires 1.0 <= scale
    ensures ScaleLow(v, scale) <= v <= ScaleHigh(v, scale)
  {
    MulAwayFromZero(v, Grow(scale));
    MulTowardZero(v, Shrink(scale));
  }

  /** For scale <= 1 a high limit does not rise, and neither does a non-negative low limit. */
  lemma ScaleDownLimit(v: real, scale: real)
    requires scale <= 1.0
    ensures ScaleHigh(v, scale) <= v
    ensures 0.0 <= v ==> ScaleLow(v, scale) <= v
    ensures v < 0.0 ==> v <= ScaleLow(v, scale)
  {
    MulAwayFromZero(v, Grow(scale));
    MulTowardZero(v, Shrink(scale));
  }

  /** For scale >= 1 the scaled interval contains the original one. */
  lemma {:induction false} ScaleUpWidens(low: seq<real>, high: seq<real>, scale: real)
    requires 1.0 <= scale
    ensures forall i :: 0 <= i < |low| ==> ScaledIntervals(low, high, scale).0[i] <= low[i]
    ensures forall i :: 0 <= i < |high| ==> high[i] <= ScaledIntervals(low, high, scale).1[i]
  {
    var r := ScaledIntervals(low, high, scale);
    forall i | 0 <= i < |low|
      ensures r.0[i] <= low[i]
    {
      ScaleUpLimit(low[i], scale);
    }
    forall i | 0 <= i < |high|
      ensures high[i] <= r.1[i]
    {
      ScaleUpLimit(high[i], scale);
    }
  }

  /**
   * For scale <= 1 every high limit comes down, but a non-negative low limit
   * comes down as well (it is multiplied by Shrink like a negative one), so
   * the interval need not shrink.
   */
  lemma {:induction false} ScaleDownLowers(low: seq<real>, high: seq<real>, scale: real)
    requires scale <= 1.0
    ensures forall i :: 0 <= i < |high| ==> ScaledIntervals(low, high, scale).1[i] <= high[i]
    ensures forall i :: 0 <= i < |low| && 0.0 <= low[i] ==> ScaledIntervals(low, high, scale).0[i] <= low[i]
    ensures forall i :: 0 <= i < |low| && low[i] < 0.0 ==> low[i] <= ScaledIntervals(low, high, scale).0[i]
  {
    var r := ScaledIntervals(low, high, scale);
    forall i | 0 <= i < |high|
      ensures r.1[i] <= high[i]
    {
      ScaleDownLimit(high[i], scale);
    }
    forall i | 0 <= i < |low|
      ensures 0.0 <= low[i] ==> r.0[i] <= low[i]
      ensures low[i] < 0.0 ==> low[i] <= r.0[i]
    {
      ScaleDownLimit(low[i], scale);
    }
  }

  // ---------------------------------------------------------------------
  // from_array

  /** All rows have the length of the first: `x` is a two-dimensional array. */
  predicate Rectangular(x: seq<seq<real>>)
  {
    forall k :: 0 <= k < |x| ==> |x[k]| == |x[0]|
  }

  /** The minimum of column `j` over the first `n` rows; `min(x, axis=0)[j]` when n == |x|. */
  function ColumnMin(x: seq<seq<real>>, j: nat, n: nat): (m: real)
    requires 0 < n <= |x| && forall k :: 0 <= k < n ==> j < |x[k]|
    ensures forall k :: 0 <= k < n ==> m <= x[k][j]
  {
    if n == 1 then x[0][j] else Min(ColumnMin(x, j, n - 1), x[n - 1][j])
  }

  /** The maximum of column `j` over the first `n` rows; `max(x, axis=0)[j]` when n == |x|. */
  function ColumnMax(x: seq<seq<real>>, j: nat, n: nat): (m: real)
    requires 0 < n <= |x| && forall k :: 0 <= k < n ==> j < |x[k]|
    ensures forall k :: 0 <= k < n ==> x[k][j] <= m
  {
    if n == 1 then x[0][j] else Max(ColumnMax(x, j, n - 1), x[n - 1][j])
  }

  /** The column extremes are entries of the column: some row attains each. */
  lemma {:induction false} ColumnExtremesAttained(x: seq<seq<real>>, j: nat, n: nat)
    requires 0 < n <= |x| && forall k :: 0 <= k < n ==> j < |x[k]|
    ensures exists k :: 0 <= k < n && ColumnMin(x, j, n) == x[k][j]
    ensures exists k :: 0 <= k < n && ColumnMax(x, j, n) == x[k][j]
  {
    if n == 1 {
      assert ColumnMin(x, j, n) == x[0][j] && ColumnMax(x, j, n) == x[0][j];
    } else {
      ColumnExtremesAttained(x, j, n - 1);
      if ColumnMin(x, j, n) == x[n - 1][j] {
      } else {
        var k :| 0 <= k < n - 1 && ColumnMin(x, j, n - 1) == x[k][j];
        assert ColumnMin(x, j, n) == x[k][j];
      }
      if ColumnMax(x, j, n) == x[n - 1][j] {
      } else {
        var k :| 0 <= k < n - 1 && ColumnMax(x, j, n - 1) == x[k][j];
        assert ColumnMax(x, j, n) == x[k][j];
      }
    }
  }

  /** `min(x, axis=0)`: each entry is at most every entry of its column. */
  function ColumnMins(x: seq<seq<real>>): (r: seq<real>)
    requires |x| > 0 && Rectangular(x)
    ensures |r| == |x[0]|
    ensures forall j, k :: 0 <= j < |r| && 0 <= k < |x| ==> r[j] <= x[k][j]
  {
    seq(|x[0]|, j requires 0 <= j < |x[0]| => ColumnMin(x, j, |x|))
  }

  /** `max(x, axis=0)`: each entry is at least every entry of its column. */
  function ColumnMaxes(x: seq<seq<real>>): (r: seq<real>)
    requires |x| > 0 && Rectangular(x)
    ensures |r| == |x[0]|
    ensures forall j, k :: 0 <= j < |r| && 0 <= k < |x| ==> x[k][j] <= r[j]
  {
    seq(|x[0]|, j requires 0 <= j < |x[0]| => ColumnMax(x, j, |x|))
  }

  /**
   * `from_array`: scale the column minima and maxima of `x` and build Bounds
   * from them; the reduction of an array without rows fails.
   */
  function FromArray(x: seq<seq<real>>, scale: real): (r: Result<Bounds, Error>)
    requires Rectangular(x)
    ensures r.Failure? <==> |x| == 0
    ensures r.Failure? ==> r.error == EmptyReduction
    ensures r.Success? ==> Valid(r.value) && Len(r.value) == |x[0]|
  {
    if |x| == 0 then Failure(EmptyReduction)
    else
      var xmin, xmax := ColumnMins(x), ColumnMaxes(x);
      var scaled := ScaledIntervals(xmin, xmax, scale);
      NewFromArrays(scaled.1, scaled.0);
      New(Array(scaled.1), Array(scaled.0), None)
  }

  /** The limits that `from_array` builds are the scaled column extremes. */
  lemma FromArrayLimits(x: seq<seq<real>>, scale: real, b: Bounds)
    requires Rectangular(x) && FromArray(x, scale) == Success(b)
    ensures b.low == ScaledIntervals(ColumnMins(x), ColumnMaxes(x), scale).0
    ensures b.high == ScaledIntervals(ColumnMins(x), ColumnMaxes(x), scale).1
  {
  }

  /** Column `j` of every row lies between the column extremes, which are attained. */
  lemma ColumnExtremes(x: seq<seq<real>>, j: nat)
    requires Rectangular(x) && |x| > 0 && j < |x[0]|
    ensures forall k :: 0 <= k < |x| ==> ColumnMins(x)[j] <= x[k][j] <= ColumnMaxes(x)[j]
    ensures exists k :: 0 <= k < |x| && ColumnMins(x)[j] == x[k][j]
    ensures exists k :: 0 <= k < |x| && ColumnMaxes(x)[j] == x[k][j]
  {
    assert ColumnMins(x)[j] == ColumnMin(x, j, |x|);
    assert ColumnMaxes(x)[j] == ColumnMax(x, j, |x|);
    ColumnExtremesAttained(x, j, |x|);
  }

  /** With scale 1 the limits are the column extremes: attained and bounding every row. */
  lemma {:induction false} FromArrayTight(x: seq<seq<real>>, j: nat)
    requires Rectangular(x) && |x| > 0 && j < |x[0]|
    ensures FromArray(x, 1.0).Success?
    ensures forall k :: 0 <= k < |x| ==>
      FromArray(x, 1.0).value.low[j] <= x[k][j] <= FromArray(x, 1.0).value.high[j]
    ensures exists k :: 0 <= k < |x| && FromArray(x, 1.0).value.low[j] == x[k][j]
    ensures exists k :: 0 <= k < |x| && FromArray(x, 1.0).value.high[j] == x[k][j]
  {
    var b := FromArray(x, 1.0).value;
    FromArrayLimits(x, 1.0, b);
    ScaleOneIsIdentity(ColumnMins(x), ColumnMaxes(x));
    assert b.low == ColumnMins(x) && b.high == ColumnMaxes(x);
    ColumnExtremes(x, j);
  }

  /** With scale >= 1 every row used to build the bounds lies inside them. */
  lemma {:induction false} FromArrayContainsRows(x: seq<seq<real>>, scale: real)
    requires Rectangular(x) && |x| > 0 && 1.0 <= scale
    ensures FromArray(x, scale).Success?
    ensures forall k :: 0 <= k < |x| ==> Within(FromArray(x, scale).value, x[k])
  {
    var b := FromArray(x, scale).value;
    var xmin, xmax := ColumnMins(x), ColumnMaxes(x);
    ScaleUpWidens(xmin, xmax, scale);
    assert b.low == ScaledIntervals(xmin, xmax, scale).0;
    assert b.high == ScaledIntervals(xmin, xmax, scale).1;
    forall k | 0 <= k < |x|
      ensures Within(b, x[k])
    {
      forall j | 0 <= j < |x[k]|
        ensures b.low[j] <= x[k][j] <= b.high[j]
      {
        ColumnExtremes(x, j);
      }
    }
  }

  /** The array of the documented example: ones, with -5 in the centre. */
  const ExampleArray: seq<seq<real>> := [[1.0, 1.0, 1.0], [1.0, -5.0, 1.0], [1.0, 1.0, 1.0]]

  lemma ExampleColumns()
    ensures Rectangular(ExampleArray)
    ensures ColumnMins(ExampleArray) == [1.0, -5.0, 1.0]
    ensures ColumnMaxes(ExampleArray) == [1.0, 1.0, 1.0]
  {
    var x := ExampleArray;
    var mins, maxes := ColumnMins(x), ColumnMaxes(x);
    assert mins[0] == 1.0 by { assert ColumnMin(x, 0, 2) == 1.0; }
    assert mins[1] == -5.0 by { assert ColumnMin(x, 1, 2) == -5.0; }
    assert mins[2] == 1.0 by { assert ColumnMin(x, 2, 2) == 1.0; }
    assert maxes[0] == 1.0 by { assert ColumnMax(x, 0, 2) == 1.0; }
    assert maxes[1] == 1.0 by { assert ColumnMax(x, 1, 2) == 1.0; }
    assert maxes[2] == 1.0 by { assert ColumnMax(x, 2, 2) == 1.0; }
  }

  lemma ExampleScaled()
    ensures ScaledIntervals([1.0, -5.0, 1.0], [1.0, 1.0, 1.0], 1.5)
            == ([0.5, -7.5, 0.5], [1.5, 1.5, 1.5])
  {
    var r := ScaledIntervals([1.0, -5.0, 1.0], [1.0, 1.0, 1.0], 1.5);
    assert r.0[0] == ScaleLow(1.0, 1.5) == 0.5;
    assert r.0[1] == ScaleLow(-5.0, 1.5) == -7.5;
    assert r.0[2] == ScaleLow(1.0, 1.5);
    assert r.1[0] == ScaleHigh(1.0, 1.5) == 1.5;
    assert r.1[1] == r.1[2] == ScaleHigh(1.0, 1.5);
    assert r.0 == [0.5, -7.5, 0.5];
    assert r.1 == [1.5, 1.5, 1.5];
  }

  /** The documented example of `from_array`, with scale 1.5. */
  lemma FromArrayExample()
    ensures FromArray(ExampleArray, 1.5)
            == Success(Bounds([1.5, 1.5, 1.5], [0.5, -7.5, 0.5], [1.0, 9.0, 1.0]))
  {
    ExampleColumns();
    ExampleScaled();
    var b := FromArray(ExampleArray, 1.5).value;
    FromArrayLimits(ExampleArray, 1.5, b);
    assert b.low == [0.5, -7.5, 0.5] && b.high == [1.5, 1.5, 1.5];
    assert b.span == [1.0, 9.0, 1.0];
  }

  // ---------------------------------------------------------------------
  // safe_margin

  /**
   * `safe_margin`: scale the given limits, each defaulting to the current
   * one, and build new Bounds from them.
   */
  function SafeMargin(b: Bounds, low: Option<seq<real>>, high: Option<seq<real>>, scale: real)
    : (r: Result<Bounds, Error>)
    requires Valid(b)
    ensures r.Success? ==> Valid(r.value)
    ensures r.Success? <==> |if low.Some? then low.value else b.low| == |if high.Some? then high.value else b.high|
    ensures r.Failure? ==> r.error == ShapeMismatch
    ensures low.None? && high.None? ==> r.Success? && Len(r.value) == Len(b)
    ensures low.None? && high.None? && scale == 1.0 ==> r == Success(b)
    ensures r.Success? ==>
              var xmin := if low.Some? then low.value else b.low;
              var xmax := if high.Some? then high.value else b.high;
              r.value.low == ScaledIntervals(xmin, xmax, scale).0
              && r.value.high == ScaledIntervals(xmin, xmax, scale).1
  {
    var xmax := if high.None? then b.high else high.value;
    var xmin := if low.None? then b.low else low.value;
    var scaled := ScaledIntervals(xmin, xmax, scale);
    ScaleOneIsIdentity(xmin, xmax);
    SpanIsDifference(b);
    New(Array(scaled.1), Array(scaled.0), None)
  }

  /** With the current limits and scale >= 1, every point inside stays inside. */
  lemma {:induction false} SafeMarginWidens(b: Bounds, scale: real, x: seq<real>)
    requires Valid(b) && 1.0 <= scale && |x| == Len(b) && Within(b, x)
    ensures SafeMargin(b, None, None, scale).Success?
    ensures Within(SafeMargin(b, None, None, scale).value, x)
  {
    ScaleUpWidens(b.low, b.high, scale);
  }

  /**
   * With overriding limits of equal length and scale >= 1, every point
   * between the overrides lies inside the new Bounds.
   */
  lemma {:induction false} SafeMarginOverridesWiden(b: Bounds, low: seq<real>, high: seq<real>, scale: real, x: seq<real>)
    requires Valid(b) && 1.0 <= scale && |low| == |high| == |x|
    requires forall i :: 0 <= i < |x| ==> low[i] <= x[i] <= high[i]
    ensures SafeMargin(b, Some(low), Some(high), scale).Success?
    ensures Within(SafeMargin(b, Some(low), Some(high), scale).value, x)
  {
    ScaleUpWidens(low, high, scale);
  }
}
