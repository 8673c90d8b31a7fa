/**
 * Clipping into Bounds and the containment test built on it.
 *
 * Clipping is numpy's clip, min(max(x, low), high): with an inverted interval
 * (low > high) it yields high. Containment asks whether clipping leaves a
 * point unchanged.
 */
module Clipping {
  import opened Numeric
  import opened BoundsCore

  /** A point, or a matrix whose rows are points. */
  datatype Points = Vector(x: seq<real>) | Matrix(rows: seq<seq<real>>)

  /** One answer for a point, one per row for a matrix. */
  datatype Membership = Single(inside: bool) | PerRow(all: seq<bool>)

  /** Every point has one coordinate per dimension. */
  predicate Conforms(b: Bounds, p: Points)
    requires Valid(b)
  {
    match p
    case Vector(x) => |x| == Len(b)
    case Matrix(rows) => forall k :: 0 <= k < |rows| ==> |rows[k]| == Len(b)
  }

  /** `clip`: saturate every coordinate of `x` into its interval. */
  function Clip(b: Bounds, x: seq<real>): (r: seq<real>)
    requires Valid(b) && |x| == Len(b)
    ensures |r| == |x|
    ensures forall i :: 0 <= i < |x| && b.low[i] <= b.high[i] ==> b.low[i] <= r[i] <= b.high[i]
    ensures forall i :: 0 <= i < |x| && b.low[i] <= x[i] <= b.high[i] ==> r[i] == x[i]
    ensures forall i :: 0 <= i < |x| && x[i] < b.low[i] <= b.high[i] ==> r[i] == b.low[i]
    ensures forall i :: 0 <= i < |x| && b.high[i] < x[i] ==> r[i] == b.high[i]
    ensures forall i :: 0 <= i < |x| && b.high[i] < b.low[i] ==> r[i] == b.high[i]
  {
    seq(|x|, i requires 0 <= i < |x| => Min(Max(x[i], b.low[i]), b.high[i]))
  }

  /** Clipping twice is clipping once, inverted intervals included. */
  lemma ClipIdempotent(b: Bounds, x: seq<real>)
    requires Valid(b) && |x| == Len(b)
    ensures Clip(b, Clip(b, x)) == Clip(b, x)
  {
  }

  /** On ordered bounds a clipped point is inside, and a point inside is its own clip. */
  lemma ClipWithin(b: Bounds, x: seq<real>)
    requires Valid(b) && |x| == Len(b) && Ordered(b)
    ensures Within(b, Clip(b, x))
    ensures Clip(b, x) == x <==> Within(b, x)
  {
  }

  /** `contains`: are all coordinates (of each row) unchanged by clipping? */
  function Contains(b: Bounds, p: Points): (r: Membership)
    requires Valid(b) && Conforms(b, p)
    ensures p.Vector? <==> r.Single?
    ensures p.Vector? ==> (r.inside <==> Clip(b, p.x) == p.x)
    ensures p.Vector? && Ordered(b) ==> (r.inside <==> Within(b, p.x))
    ensures p.Matrix? ==> |r.all| == |p.rows|
    ensures p.Matrix? ==> forall k :: 0 <= k < |p.rows| ==> (r.all[k] <==> Clip(b, p.rows[k]) == p.rows[k])
    ensures p.Matrix? && Ordered(b) ==>
              forall k :: 0 <= k < |p.rows| ==> (r.all[k] <==> Within(b, p.rows[k]))
  {
    match p
    case Vector(x) =>
      Single(Clip(b, x) == x)
    case Matrix(rows) =>
      PerRow(seq(|rows|, k requires 0 <= k < |rows| => Clip(b, rows[k]) == rows[k]))
  }

  /** `points_in_bounds`: the same test as `contains`, written out again. */
  function PointsInBounds(b: Bounds, p: Points): (r: Membership)
    requires Valid(b) && Conforms(b, p)
    ensures p.Vector? <==> r.Single?
    ensures p.Vector? && Ordered(b) ==> (r.inside <==> Within(b, p.x))
    ensures p.Matrix? ==> |r.all| == |p.rows|
    ensures p.Matrix? && Ordered(b) ==>
              forall k :: 0 <= k < |p.rows| ==> (r.all[k] <==> Within(b, p.rows[k]))
  {
    match p
    case Vector(x) =>
      Single(Clip(b, x) == x)
    case Matrix(rows) =>
      PerRow(seq(|rows|, k requires 0 <= k < |rows| => Clip(b, rows[k]) == rows[k]))
  }

  /**
   * With inverted intervals allowed, a point is contained exactly when every
   * coordinate lies in its closed interval or equals `high` of an inverted one.
   */
  lemma ContainsAnyBounds(b: Bounds, x: seq<real>)
    requires Valid(b) && |x| == Len(b)
    ensures Contains(b, Vector(x)).inside <==>
              forall i :: 0 <= i < |x| ==>
                (b.low[i] <= x[i] <= b.high[i]) || (b.high[i] < b.low[i] && x[i] == b.high[i])
  {
    var c := Clip(b, x);
    if c == x {
      forall i | 0 <= i < |x|
        ensures (b.low[i] <= x[i] <= b.high[i]) || (b.high[i] < b.low[i] && x[i] == b.high[i])
      {
        assert c[i] == x[i];
      }
    }
  }

  lemma PointsInBoundsIsContains(b: Bounds, p: Points)
    requires Valid(b) && Conforms(b, p)
    ensures PointsInBounds(b, p) == Contains(b, p)
  {
  }

  /** Whatever the point, its clip is contained in ordered bounds. */
  lemma ContainsClip(b: Bounds, x: seq<real>)
    requires Valid(b) && |x| == Len(b) && Ordered(b)
    ensures Contains(b, Vector(Clip(b, x))) == Single(true)
  {
    ClipIdempotent(b, x);
  }
}
