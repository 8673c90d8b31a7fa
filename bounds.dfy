/**
 * The Bounds value of judo: per-dimension closed intervals [low[i], high[i]]
 * together with the span high - low that the constructor caches.
 *
 * Limits are reals (no dtype, no IEEE rounding, no infinities) and bounds are
 * one-dimensional: a shape is a single length.
 */
module BoundsCore {
  import opened Results

  /**
   * A limit as handed to the constructor: a scalar, an iterable without a
   * `shape` attribute (a Python list or tuple), or an array that has one.
   */
  datatype Limit = Scalar(v: real) | List(vs: seq<real>) | Array(vs: seq<real>)

  datatype Error =
    | ShapeNotInferred   // no explicit shape, and neither limit is an array
    | ShapeMismatch      // `high - low` cannot be formed element-wise
    | EmptyReduction     // the minimum of a zero-size array

  /** `span` is the cached `high - low` of the constructor. */
  datatype Bounds = Bounds(high: seq<real>, low: seq<real>, span: seq<real>)

  /** What every constructed Bounds satisfies. */
  predicate Valid(b: Bounds)
  {
    && |b.low| == |b.high|
    && |b.span| == |b.high|
    && forall i :: 0 <= i < |b.high| ==> b.span[i] == b.high[i] - b.low[i]
  }

  /** Every coordinate of `x` lies in its closed interval. */
  predicate Within(b: Bounds, x: seq<real>)
    requires Valid(b) && |x| == |b.high|
  {
    forall i :: 0 <= i < |x| ==> b.low[i] <= x[i] <= b.high[i]
  }

  /** No interval is inverted (the constructor does not enforce this). */
  predicate Ordered(b: Bounds)
    requires Valid(b)
  {
    forall i :: 0 <= i < |b.high| ==> b.low[i] <= b.high[i]
  }

  /** The number of dimensions, `len(self.high)`. */
  function Len(b: Bounds): (n: nat)
    requires Valid(b)
    ensures n == |b.low| == |b.span|
  {
    |b.high|
  }

  /**
   * The shape the constructor works with: the explicit one, else that of an
   * array `high`, else that of an array `low`; a list has no shape.
   */
  function ResolveShape(high: Limit, low: Limit, shape: Option<nat>): (r: Option<nat>)
    ensures r.None? <==> shape.None? && !high.Array? && !low.Array?
    ensures shape.Some? ==> r == shape
    ensures shape.None? && high.Array? ==> r == Some(|high.vs|)
    ensures shape.None? && !high.Array? && low.Array? ==> r == Some(|low.vs|)
  {
    if shape.Some? then shape
    else if high.Array? then Some(|high.vs|)
    else if low.Array? then Some(|low.vs|)
    else None
  }

  /** A scalar becomes `ones(n) * v`; a list or array is taken as it is. */
  function Materialize(lim: Limit, n: nat): (r: seq<real>)
    ensures lim.Scalar? ==> |r| == n && forall i :: 0 <= i < n ==> r[i] == lim.v
    ensures !lim.Scalar? ==> r == lim.vs
    ensures |r| == Width(lim, n)
  {
    match lim
    case Scalar(v) => seq(n, _ => v)
    case List(vs) => vs
    case Array(vs) => vs
  }

  /** `high - low`, element-wise. */
  function Difference(high: seq<real>, low: seq<real>): (d: seq<real>)
    requires |high| == |low|
    ensures |d| == |high|
    ensures forall i :: 0 <= i < |d| ==> low[i] + d[i] == high[i]
  {
    seq(|high|, i requires 0 <= i < |high| => high[i] - low[i])
  }

  /** The number of coordinates a limit has once broadcast to a shape of length n. */
  function Width(lim: Limit, n: nat): nat
  {
    if lim.Scalar? then n else |lim.vs|
  }

  /**
   * `Bounds(high, low, shape)`: resolve the shape, broadcast scalar limits to
   * it and cache the span.
   */
  function New(high: Limit, low: Limit, shape: Option<nat>): (r: Result<Bounds, Error>)
    ensures r == Failure(ShapeNotInferred) <==> shape.None? && !high.Array? && !low.Array?
    ensures r.Success? ==> Valid(r.value)
    ensures r.Success? ==> ResolveShape(high, low, shape).Some?
    ensures r.Success? && high.Scalar? ==>
              |r.value.high| == ResolveShape(high, low, shape).value
              && forall i :: 0 <= i < |r.value.high| ==> r.value.high[i] == high.v
    ensures r.Success? && low.Scalar? ==>
              |r.value.low| == ResolveShape(high, low, shape).value
              && forall i :: 0 <= i < |r.value.low| ==> r.value.low[i] == low.v
    ensures r.Success? && !high.Scalar? ==> r.value.high == high.vs
    ensures r.Success? && !low.Scalar? ==> r.value.low == low.vs
    ensures !high.Scalar? && !low.Scalar? && (high.Array? || low.Array? || shape.Some?) ==>
              (r.Success? <==> |high.vs| == |low.vs|)
    ensures ResolveShape(high, low, shape).Some? ==>
              (r.Success? <==> Width(high, ResolveShape(high, low, shape).value)
                               == Width(low, ResolveShape(high, low, shape).value))
    ensures r.Failure? ==> r.error == ShapeNotInferred || r.error == ShapeMismatch
  {
    match ResolveShape(high, low, shape)
    case None => Failure(ShapeNotInferred)
    case Some(n) =>
      var h := Materialize(high, n);
      var l := Materialize(low, n);
      if |h| != |l| then Failure(ShapeMismatch)
      else Success(Bounds(h, l, Difference(h, l)))
  }

  /** The cached span of valid Bounds is the one a fresh construction computes. */
  lemma SpanIsDifference(b: Bounds)
    requires Valid(b)
    ensures Difference(b.high, b.low) == b.span
  {
  }

  /** Constructing from two arrays of one length never fails. */
  lemma NewFromArrays(high: seq<real>, low: seq<real>)
    requires |high| == |low|
    ensures New(Array(high), Array(low), None).Success?
    ensures New(Array(high), Array(low), None).value == Bounds(high, low, Difference(high, low))
  {
  }

  /** The documented constructions: two arrays, and two scalars with shape (5,). */
  lemma {:induction false} NewExamples()
    ensures New(Array([1.0, 1.0, 1.0]), Array([-1.0, -1.0, -1.0]), None)
            == Success(Bounds([1.0, 1.0, 1.0], [-1.0, -1.0, -1.0], [2.0, 2.0, 2.0]))
    ensures New(Scalar(4.0), Scalar(2.1), Some(5))
            == Success(Bounds([4.0, 4.0, 4.0, 4.0, 4.0], [2.1, 2.1, 2.1, 2.1, 2.1],
                              [1.9, 1.9, 1.9, 1.9, 1.9]))
    ensures New(List([1.0, 2.0]), Scalar(0.0), None) == Failure(ShapeNotInferred)
  {
    var r := New(Scalar(4.0), Scalar(2.1), Some(5));
    assert r.value.high == [4.0, 4.0, 4.0, 4.0, 4.0];
    assert r.value.low == [2.1, 2.1, 2.1, 2.1, 2.1];
    assert r.value.span == [1.9, 1.9, 1.9, 1.9, 1.9];
    var a := New(Array([1.0, 1.0, 1.0]), Array([-1.0, -1.0, -1.0]), None);
    assert a.value.span == [2.0, 2.0, 2.0];
  }

  // ---------------------------------------------------------------------
  // Tuple conversion

  /** The first components of the pairs. */
  function Lows(pairs: seq<(real, real)>): (r: seq<real>)
    ensures |r| == |pairs|
    ensures forall i :: 0 <= i < |pairs| ==> r[i] == pairs[i].0
  {
    seq(|pairs|, i requires 0 <= i < |pairs| => pairs[i].0)
  }

  /** The second components of the pairs. */
  function Highs(pairs: seq<(real, real)>): (r: seq<real>)
    ensures |r| == |pairs|
    ensures forall i :: 0 <= i < |pairs| ==> r[i] == pairs[i].1
  {
    seq(|pairs|, i requires 0 <= i < |pairs| => pairs[i].1)
  }

  /** `to_tuples`: `zip(low, high)`, so as long as the shorter of the two. */
  function ToTuples(b: Bounds): (r: seq<(real, real)>)
    ensures |r| <= |b.low| && |r| <= |b.high|
    ensures |r| == |b.low| || |r| == |b.high|
    ensures forall i :: 0 <= i < |r| ==> r[i] == (b.low[i], b.high[i])
  {
    var n := if |b.low| <= |b.high| then |b.low| else |b.high|;
    seq(n, i requires 0 <= i < n => (b.low[i], b.high[i]))
  }

  /**
   * `from_tuples`: collect the lows and the highs of the pairs into two lists
   * and build Bounds from the two arrays.
   */
  method FromTuples(pairs: seq<(real, real)>) returns (b: Bounds)
    ensures Valid(b)
    ensures b.low == Lows(pairs) && b.high == Highs(pairs)
    ensures ToTuples(b) == pairs
  {
    var low: seq<real> := [];
    var high: seq<real> := [];
    var i := 0;
    while i < |pairs|
      invariant 0 <= i <= |pairs|
      invariant |low| == i && |high| == i
      invariant forall k :: 0 <= k < i ==> low[k] == pairs[k].0 && high[k] == pairs[k].1
    {
      var (lo, hi) := pairs[i];
      low := low + [lo];
      high := high + [hi];
      i := i + 1;
    }
    var r := New(Array(high), Array(low), None);
    b := r.value;
    assert b.low == Lows(pairs);
    assert b.high == Highs(pairs);
    TuplesOfPairs(pairs, b);
  }

  /** Bounds whose limits are the components of `pairs` give back `pairs`. */
  lemma TuplesOfPairs(pairs: seq<(real, real)>, b: Bounds)
    requires b.low == Lows(pairs) && b.high == Highs(pairs)
    ensures ToTuples(b) == pairs
  {
    var t := ToTuples(b);
    assert |t| == |pairs|;
    forall i | 0 <= i < |pairs|
      ensures t[i] == pairs[i]
    {
      assert t[i] == (pairs[i].0, pairs[i].1);
    }
  }

  /** `to_tuples` then splitting the pairs gives back `low` and `high`. */
  lemma PairsOfTuples(b: Bounds)
    requires Valid(b)
    ensures Lows(ToTuples(b)) == b.low && Highs(ToTuples(b)) == b.high
  {
  }

  /** The documented example of `from_tuples`. */
  lemma FromTuplesExample()
    ensures Lows([(-1.0, 1.0), (-2.0, 1.0), (2.0, 3.0)]) == [-1.0, -2.0, 2.0]
    ensures Highs([(-1.0, 1.0), (-2.0, 1.0), (2.0, 3.0)]) == [1.0, 1.0, 3.0]
  {
  }

  /** The documented example of `to_tuples`: limits `-array` and `array`. */
  lemma ToTuplesExample()
    ensures New(Array([1.0, 2.0, 5.0]), Array([-1.0, -2.0, -5.0]), None).Success?
    ensures ToTuples(New(Array([1.0, 2.0, 5.0]), Array([-1.0, -2.0, -5.0]), None).value)
         == [(-1.0, 1.0), (-2.0, 2.0), (-5.0, 5.0)]
  {
    var b := New(Array([1.0, 2.0, 5.0]), Array([-1.0, -2.0, -5.0]), None).value;
    assert b.low == [-1.0, -2.0, -5.0] && b.high == [1.0, 2.0, 5.0];
  }
}
