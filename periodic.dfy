/**
 * Periodic boundary conditions over Bounds: `pbc`, a two-pass conditional
 * rewrite of each coordinate, and `pbc_distance`.
 *
 * `mod` is numpy's floored modulo on floats. A mod by zero yields NaN in
 * numpy; the model leaves those coordinates out by precondition, and only
 * where that mod is actually selected.
 */
module Periodic {
  import opened Numeric
  import opened BoundsCore

  /** First pass, one coordinate: keep x below high, else (x mod high) + low. */
  function FirstPass(x: real, low: real, high: real): (r: real)
    requires x < high || high != 0.0
    ensures x < high ==> r == x
    ensures 0.0 < high <= x ==> low <= r < low + high
    ensures high < 0.0 && high <= x ==> low + high < r <= low
  {
    if x < high then x else FloorMod(x, high) + low
  }

  /** Neither pass selects a mod by zero for this coordinate. */
  predicate PbcDefined(x: real, low: real, high: real)
  {
    && (x < high || high != 0.0)
    && (FirstPass(x, low, high) > low || low != 0.0)
  }

  /** `pbc`: both passes run over the whole vector, the second on the result of the first. */
  function Pbc(b: Bounds, x: seq<real>): (r: seq<real>)
    requires Valid(b) && |x| == Len(b)
    requires forall i :: 0 <= i < |x| ==> PbcDefined(x[i], b.low[i], b.high[i])
    ensures |r| == |x|
    ensures forall i :: 0 <= i < |x| && b.low[i] < x[i] < b.high[i] ==> r[i] == x[i]
  {
    var y := seq(|x|, i requires 0 <= i < |x| =>
               assert PbcDefined(x[i], b.low[i], b.high[i]);
               FirstPass(x[i], b.low[i], b.high[i]));
    seq(|y|, i requires 0 <= i < |y| =>
      assert PbcDefined(x[i], b.low[i], b.high[i]) && y[i] == FirstPass(x[i], b.low[i], b.high[i]);
      if y[i] > b.low[i] then y[i] else b.high[i] - FloorMod(y[i], b.low[i]))
  }

  /**
   * With low == 0 and high > 0 a coordinate is defined exactly when it is
   * positive and is not sent to 0 by the first pass; its image then lies
   * strictly between 0 and high.
   */
  lemma ZeroLowCoordinate(x: real, high: real)
    requires 0.0 < high
    ensures PbcDefined(x, 0.0, high) <==> 0.0 < x && (x < high || FloorMod(x, high) != 0.0)
    ensures PbcDefined(x, 0.0, high) ==> 0.0 < FirstPass(x, 0.0, high) < high
  {
  }

  /** On bounds [0, high] with high > 0, every defined image lies in the open interval. */
  lemma {:induction false} PbcZeroLowInside(b: Bounds, x: seq<real>)
    requires Valid(b) && |x| == Len(b)
    requires forall i :: 0 <= i < |x| ==> b.low[i] == 0.0 < b.high[i]
    requires forall i :: 0 <= i < |x| ==> PbcDefined(x[i], b.low[i], b.high[i])
    ensures forall i :: 0 <= i < |x| ==> 0.0 < Pbc(b, x)[i] < b.high[i]
  {
    var r := Pbc(b, x);
    forall i | 0 <= i < |x|
      ensures 0.0 < r[i] < b.high[i]
    {
      ZeroLowCoordinate(x[i], b.high[i]);
    }
  }

  /** Bounds [0, 10]: 11 wraps to (11 mod 10) + 0 = 1. */
  lemma PbcExample()
    ensures Pbc(Bounds([10.0], [0.0], [10.0]), [11.0]) == [1.0]
  {
    assert FloorMod(11.0, 10.0) == 1.0 by {
      assert (11.0 / 10.0).Floor == 1;
    }
  }

  /**
   * `pbc` need not land inside the bounds: on [-10, 10] the second pass maps
   * -13 to 10 - (-13 mod -10) = 10 - (-3) = 13, whereas a periodic wrap with
   * period 20 gives 7.
   */
  lemma PbcEscapesBounds()
    ensures Pbc(Bounds([10.0], [-10.0], [20.0]), [-13.0]) == [13.0]
    ensures !Within(Bounds([10.0], [-10.0], [20.0]), [13.0])
    ensures Wrap(Bounds([10.0], [-10.0], [20.0]), [-13.0]) == [7.0]
  {
    assert FloorMod(-13.0, -10.0) == -3.0 by {
      assert (-13.0 / -10.0).Floor == 1;
    }
    assert FloorMod(-3.0, 20.0) == 17.0 by {
      assert (-3.0 / 20.0).Floor == -1;
    }
  }

  /**
   * The escape does not need a negative limit: on [2, 10] the first pass maps
   * 19 to (19 mod 10) + 2 = 11, which the second pass keeps, whereas a wrap
   * with period 8 gives 3.
   */
  lemma PbcEscapesAbove()
    ensures Pbc(Bounds([10.0], [2.0], [8.0]), [19.0]) == [11.0]
    ensures !Within(Bounds([10.0], [2.0], [8.0]), [11.0])
    ensures Wrap(Bounds([10.0], [2.0], [8.0]), [19.0]) == [3.0]
  {
    assert FloorMod(19.0, 10.0) == 9.0 by {
      assert (19.0 / 10.0).Floor == 1;
    }
    assert FloorMod(17.0, 8.0) == 1.0 by {
      assert (17.0 / 8.0).Floor == 2;
    }
  }

  /**
   * On [0, 10] both ends of the closed interval reach a mod by zero: 0 is kept
   * by the first pass and 10 becomes (10 mod 10) + 0 = 0, and the second pass
   * then takes 0 mod 0. The wrap sends both ends to 0.
   */
  lemma PbcBoundaryUndefined()
    ensures !PbcDefined(0.0, 0.0, 10.0)
    ensures !PbcDefined(10.0, 0.0, 10.0)
    ensures Wrap(Bounds([10.0], [0.0], [10.0]), [0.0]) == [0.0]
    ensures Wrap(Bounds([10.0], [0.0], [10.0]), [10.0]) == [0.0]
  {
    assert FloorMod(10.0, 10.0) == 0.0 by {
      assert (10.0 / 10.0).Floor == 1;
    }
    assert FloorMod(0.0, 10.0) == 0.0 by {
      assert (0.0 / 10.0).Floor == 0;
    }
  }

  /**
   * A periodic wrap of every coordinate into [low, high): low plus the
   * floored remainder of x - low by the span.
   */
  function Wrap(b: Bounds, x: seq<real>): (r: seq<real>)
    requires Valid(b) && |x| == Len(b)
    requires forall i :: 0 <= i < |x| ==> b.low[i] < b.high[i]
    ensures |r| == |x|
    ensures forall i :: 0 <= i < |x| ==> b.low[i] <= r[i] < b.high[i]
  {
    seq(|x|, i requires 0 <= i < |x| => b.low[i] + FloorMod(x[i] - b.low[i], b.span[i]))
  }

  /**
   * The wrap moves each coordinate by a whole number of periods, and leaves
   * every coordinate already in [low, high) alone.
   */
  lemma {:induction false} WrapIsPeriodic(b: Bounds, x: seq<real>)
    requires Valid(b) && |x| == Len(b)
    requires forall i :: 0 <= i < |x| ==> b.low[i] < b.high[i]
    ensures forall i :: 0 <= i < |x| ==> IsInteger((x[i] - Wrap(b, x)[i]) / b.span[i])
    ensures forall i :: 0 <= i < |x| && b.low[i] <= x[i] < b.high[i] ==> Wrap(b, x)[i] == x[i]
  {
    var r := Wrap(b, x);
    forall i | 0 <= i < |x|
      ensures IsInteger((x[i] - r[i]) / b.span[i])
      ensures b.low[i] <= x[i] < b.high[i] ==> r[i] == x[i]
    {
      var d := x[i] - b.low[i];
      FloorModMultiple(d, b.span[i]);
      assert x[i] - r[i] == d - FloorMod(d, b.span[i]);
      if b.low[i] <= x[i] < b.high[i] {
        FloorModOfSmall(d, b.span[i]);
      }
    }
  }

  // ---------------------------------------------------------------------
  // pbc_distance

  /** `pbc_distance`: |x - y|, less the span wherever x exceeds half the span. */
  function PbcDistance(b: Bounds, x: seq<real>, y: seq<real>): (r: seq<real>)
    requires Valid(b) && |x| == Len(b) && |y| == Len(b)
    ensures |r| == |x|
    ensures forall i :: 0 <= i < |x| && x[i] <= 0.5 * b.span[i] ==> r[i] == Abs(x[i] - y[i])
    ensures forall i :: 0 <= i < |x| && 0.5 * b.span[i] < x[i] ==> r[i] == Abs(x[i] - y[i]) - b.span[i]
  {
    var delta := seq(|x|, i requires 0 <= i < |x| => Abs(x[i] - y[i]));
    seq(|x|, i requires 0 <= i < |x| => if x[i] > 0.5 * b.span[i] then delta[i] - b.span[i] else delta[i])
  }

  /** For two points inside ordered bounds the result lies in [-span, span]. */
  lemma {:induction false} PbcDistanceBounded(b: Bounds, x: seq<real>, y: seq<real>)
    requires Valid(b) && |x| == Len(b) && |y| == Len(b) && Ordered(b)
    requires Within(b, x) && Within(b, y)
    ensures forall i :: 0 <= i < |x| ==> -b.span[i] <= PbcDistance(b, x, y)[i] <= b.span[i]
  {
    var r := PbcDistance(b, x, y);
    forall i | 0 <= i < |x|
      ensures -b.span[i] <= r[i] <= b.span[i]
    {
      assert Abs(x[i] - y[i]) <= b.span[i];
    }
  }

  /**
   * The wrap test reads x rather than |x - y|: on [0, 10] the points 9 and 1
   * are 8 apart, pbc_distance(9, 1) is -2 and pbc_distance(1, 9) is 8.
   */
  lemma PbcDistanceTestsX()
    ensures PbcDistance(Bounds([10.0], [0.0], [10.0]), [9.0], [1.0]) == [-2.0]
    ensures PbcDistance(Bounds([10.0], [0.0], [10.0]), [1.0], [9.0]) == [8.0]
  {
  }
}
