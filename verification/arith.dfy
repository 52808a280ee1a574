/** Facts about real multiplication that the solver does not find on its own. */
module Arith {

  function Abs(x: real): real {
    if x < 0.0 then -x else x
  }

  lemma ProdPos(p: real, q: real)
    requires 0.0 < p && 0.0 < q
    ensures 0.0 < p * q
  {}

  lemma ProdNonNegative(p: real, q: real)
    requires 0.0 <= p && 0.0 <= q
    ensures 0.0 <= p * q
  {
    if 0.0 < p && 0.0 < q {
      ProdPos(p, q);
    }
  }

  lemma SquareNonNegative(t: real)
    ensures 0.0 <= t * t
  {
    if t < 0.0 {
      ProdPos(-t, -t);
    } else if 0.0 < t {
      ProdPos(t, t);
    }
  }

  lemma SquareStrict(a: real, b: real)
    requires 0.0 <= a < b
    ensures a * a < b * b
  {
    ProdPos(b - a, b + a);
  }

  /** Two non-negative numbers with the same square are equal. */
  lemma SquareRootUnique(a: real, b: real)
    requires 0.0 <= a && 0.0 <= b && a * a == b * b
    ensures a == b
  {
    if a < b {
      SquareStrict(a, b);
    } else if b < a {
      SquareStrict(b, a);
    }
  }

  /** Squares of non-negative numbers are ordered like the numbers. */
  lemma SquareLess(a: real, b: real)
    requires 0.0 <= a && 0.0 <= b && a * a < b * b
    ensures a < b
  {
    if b < a {
      SquareStrict(b, a);
    }
  }

  lemma Cancel(x: real, y: real, s: real)
    requires s != 0.0 && x * s == y * s
    ensures x == y
  {
    if x < y {
      if 0.0 < s { ProdPos(y - x, s); } else { ProdPos(y - x, -s); }
    } else if y < x {
      if 0.0 < s { ProdPos(x - y, s); } else { ProdPos(x - y, -s); }
    }
  }

  lemma QuotTimes(x: real, s: real)
    requires s != 0.0
    ensures (x / s) * s == x
  {}

  lemma AbsSquare(t: real)
    ensures Abs(t) * Abs(t) == t * t
  {
    if t < 0.0 {
      assert Abs(t) == -t;
    }
  }

  /** Scaling a unit vector (given by its coordinates) by `t` gives squared length `t * t`. */
  lemma ScaledUnitSquare(x: real, y: real, z: real, t: real, dx: real, dy: real, dz: real)
    requires x * x + y * y + z * z == 1.0
    requires dx == -(x * t) && dy == -(y * t) && dz == -(z * t)
    ensures dx * dx + dy * dy + dz * dz == t * t
  {
    Distribute3(t * t, x * x, y * y, z * z);
  }

  /** The square of `u + t * v`, expanded. */
  lemma SquareSum(u: real, t: real, v: real)
    ensures (u + t * v) * (u + t * v) == u * u + 2.0 * t * (v * u) + (t * t) * (v * v)
  {}

  lemma Distribute3(k: real, a: real, b: real, c: real)
    ensures k * (a + b + c) == k * a + k * b + k * c
  {}

  /** Scaling by `n` and then by `1 / n` gives the number back. */
  lemma ScaleBack(x: real, n: real)
    requires n != 0.0
    ensures (x * n) * (1.0 / n) == x
  {}
}
