/**
 * Scalar arithmetic that the array library performs element-wise for Bounds:
 * minimum, maximum, absolute value and the floored modulo of numpy's `mod`.
 */
module Numeric {

  function Min(a: real, b: real): (r: real)
    ensures r <= a && r <= b
    ensures r == a || r == b
  {
    if a <= b then a else b
  }

  function Max(a: real, b: real): (r: real)
    ensures a <= r && b <= r
    ensures r == a || r == b
  {
    if a <= b then b else a
  }

  function Abs(x: real): (r: real)
    ensures 0.0 <= r
    ensures r == x || r == -x
  {
    if x < 0.0 then -x else x
  }

  /** True when `z` is a whole number. */
  predicate IsInteger(z: real)
  {
    z.Floor as real == z
  }

  lemma FloorBounds(z: real)
    ensures z - 1.0 < z.Floor as real <= z
  {
  }

  /**
   * numpy's `mod` on floats: the remainder takes the sign of the divisor,
   * x - floor(x / y) * y.
   */
  function FloorMod(x: real, y: real): (r: real)
    requires y != 0.0
    ensures 0.0 < y ==> 0.0 <= r < y
    ensures y < 0.0 ==> y < r <= 0.0
  {
    FloorModRange(x, y);
    x - (x / y).Floor as real * y
  }

  lemma FloorModRange(x: real, y: real)
    requires y != 0.0
    ensures 0.0 < y ==> 0.0 <= x - (x / y).Floor as real * y < y
    ensures y < 0.0 ==> y < x - (x / y).Floor as real * y <= 0.0
  {
    var z := x / y;
    var q := z.Floor as real;
    FloorBounds(z);
    MulBetween(z, q, y);
    DivThenMul(x, y);
    assert Mul(z, y) == x;
    assert Mul(q, y) == q * y;
  }

  /** x and its floored remainder by y differ by a whole number of y. */
  lemma FloorModMultiple(x: real, y: real)
    requires y != 0.0
    ensures IsInteger((x - FloorMod(x, y)) / y)
  {
    var n := (x / y).Floor;
    assert FloorMod(x, y) == x - n as real * y;
    RemainderQuotient(x, y, n);
  }

  /** Taking away n * y from x leaves a remainder whose quotient with x is n. */
  lemma RemainderQuotient(x: real, y: real, n: int)
    requires y != 0.0
    ensures IsInteger((x - (x - n as real * y)) / y)
  {
    MulThenDiv(n as real, y);
    assert x - (x - n as real * y) == n as real * y;
    assert (n as real).Floor == n;
  }

  lemma DivThenMul(x: real, y: real)
    requires y != 0.0
    ensures (x / y) * y == x
  {
  }

  lemma MulThenDiv(q: real, y: real)
    requires y != 0.0
    ensures (q * y) / y == q
  {
  }

  /**
   * Real multiplication behind a function symbol: the solver then treats the
   * products in the lemmas below as atoms and reasons about them linearly.
   */
  function Mul(a: real, b: real): real
  {
    a * b
  }

  lemma SignOfProduct(a: real, y: real)
    ensures 0.0 <= a && 0.0 < y ==> 0.0 <= Mul(a, y)
    ensures 0.0 < a && 0.0 < y ==> 0.0 < Mul(a, y)
    ensures 0.0 <= a && y < 0.0 ==> Mul(a, y) <= 0.0
    ensures 0.0 < a && y < 0.0 ==> Mul(a, y) < 0.0
  {
  }

  lemma Distribute(a: real, b: real, y: real)
    ensures Mul(a - b, y) == Mul(a, y) - Mul(b, y)
    ensures Mul(1.0, y) == y
  {
  }

  lemma Negate(a: real, b: real)
    ensures Mul(a, -b) == -Mul(a, b)
    ensures Mul(a, b) == Mul(b, a)
  {
  }

  /** Multiplying q in (z - 1, z] by y brings q * y within one |y| of z * y. */
  lemma MulBetween(z: real, q: real, y: real)
    requires z - 1.0 < q <= z
    requires y != 0.0
    ensures 0.0 < y ==> Mul(z, y) - y < Mul(q, y) <= Mul(z, y)
    ensures y < 0.0 ==> Mul(z, y) <= Mul(q, y) < Mul(z, y) - y
  {
    Distribute(z, q, y);
    Distribute(q, z - 1.0, y);
    Distribute(z, 1.0, y);
    SignOfProduct(z - q, y);
    SignOfProduct(q - (z - 1.0), y);
  }

  /** A floored remainder of a value already in [0, y) is the value itself. */
  lemma FloorModOfSmall(x: real, y: real)
    requires 0.0 <= x < y
    ensures FloorMod(x, y) == x
  {
    QuotientBelowOne(x, y);
    assert (x / y).Floor == 0;
  }

  lemma QuotientBelowOne(x: real, y: real)
    requires 0.0 <= x < y
    ensures 0.0 <= x / y < 1.0
  {
    DivThenMul(x, y);
    var z := x / y;
    assert Mul(z, y) == x;
    QuotientNonNegative(x, y);
    if 1.0 <= z {
      Distribute(z, 1.0, y);
      SignOfProduct(z - 1.0, y);
    }
  }

  lemma QuotientNonNegative(x: real, y: real)
    requires 0.0 <= x && 0.0 < y
    ensures 0.0 <= x / y
  {
  }
}
