/**
 * Point, line and colour algebra of the ray caster (c/ray-cast.h:564-660),
 * over the reals: the C `double` arithmetic without rounding.
 */
module Vectors {
  import opened Arith

  /** RAYCASTER_PRECISION: the tolerance of every "is it (almost) zero" test. */
  const Precision: real := 0.000000001

  datatype Point = Point(x: real, y: real, z: real)

  /** A segment from `origin` to `destiny`; its direction is derived on demand. */
  datatype Line = Line(origin: Point, destiny: Point)

  /** An RGB colour; components are not clamped. */
  datatype Color = Color(red: real, green: real, blue: real)

  const Zero := Point(0.0, 0.0, 0.0)
  const Black := Color(0.0, 0.0, 0.0)

  /**
   * The two routines of <math.h> the ray caster calls. They are parameters of
   * the model; `SoundSqrt` states what is assumed of `sqrt` where it matters.
   */
  datatype MathLib = MathLib(sqrt: real -> real, pow: (real, real) -> real)

  ghost predicate SoundSqrt(lib: MathLib) {
    forall x: real :: 0.0 <= x ==> 0.0 <= lib.sqrt(x) && lib.sqrt(x) * lib.sqrt(x) == x
  }

  /**
   * Division. A zero divisor, which gives an infinity or NaN in C, gives 0
   * here; the callers only divide by zero where the two agree observably.
   */
  function Div(a: real, b: real): real {
    if b == 0.0 then 0.0 else a / b
  }

  function Dot(a: Point, b: Point): real {
    a.x * b.x + a.y * b.y + a.z * b.z
  }

  function Len(lib: MathLib, a: Point): real {
    lib.sqrt(Dot(a, a))
  }

  /** Distance between two points, through the absolute coordinate differences. */
  function Len2p(lib: MathLib, a: Point, b: Point): real {
    var d := Point(Abs(a.x - b.x), Abs(a.y - b.y), Abs(a.z - b.z));
    lib.sqrt(Dot(d, d))
  }

  function LenL(lib: MathLib, a: Line): real {
    Len(lib, ToPoint(a))
  }

  function Mul(a: real, b: Point): Point {
    Point(b.x * a, b.y * a, b.z * a)
  }

  function Dv(a: Point, b: real): Point {
    Point(Div(a.x, b), Div(a.y, b), Div(a.z, b))
  }

  function Cross(a: Point, b: Point): Point {
    Point(a.y * b.z - a.z * b.y, a.z * b.x - a.x * b.z, a.x * b.y - a.y * b.x)
  }

  function Add(a: Point, b: Point): Point {
    Point(a.x + b.x, a.y + b.y, a.z + b.z)
  }

  function Sub(a: Point, b: Point): Point {
    Point(a.x - b.x, a.y - b.y, a.z - b.z)
  }

  /** Approximate equality: every coordinate differs by less than `Precision`. */
  predicate Eq(a: Point, b: Point) {
    Abs(a.x - b.x) < Precision && Abs(a.y - b.y) < Precision && Abs(a.z - b.z) < Precision
  }

  function ToPoint(a: Line): Point {
    Point(Abs(a.origin.x - a.destiny.x), Abs(a.origin.y - a.destiny.y), Abs(a.origin.z - a.destiny.z))
  }

  /** The unit vector from `origin` towards `destiny`; a zero-length line has none. */
  function Direction(lib: MathLib, a: Line): Point
    requires a.origin != a.destiny
  {
    var d := Sub(a.destiny, a.origin);
    Dv(d, Len(lib, d))
  }

  function AddC(a: Color, b: Color): Color {
    Color(a.red + b.red, a.green + b.green, a.blue + b.blue)
  }

  function MulDC(a: real, b: Color): Color {
    Color(b.red * a, b.green * a, b.blue * a)
  }

  function Mul2C(a: Color, b: Color): Color {
    Color(b.red * a.red, b.green * a.green, b.blue * a.blue)
  }

  /** `base` with the colours `cs` added one after another, as a loop of `addC` does. */
  function Accumulate(base: Color, cs: seq<Color>): Color {
    if |cs| == 0 then base else AddC(Accumulate(base, cs[..|cs| - 1]), cs[|cs| - 1])
  }

  // ---------------------------------------------------------------------
  // Colour laws

  lemma AddCCommutative(a: Color, b: Color)
    ensures AddC(a, b) == AddC(b, a)
  {}

  lemma AddCAssociative(a: Color, b: Color, c: Color)
    ensures AddC(AddC(a, b), c) == AddC(a, AddC(b, c))
  {}

  lemma BlackIsAddCIdentity(a: Color)
    ensures AddC(Black, a) == a && AddC(a, Black) == a
  {}

  lemma MulDCDistributesOverAddC(k: real, a: Color, b: Color)
    ensures MulDC(k, AddC(a, b)) == AddC(MulDC(k, a), MulDC(k, b))
  {}

  /** Scaling by `m` is scaling by `m - 1` and adding the colour once more. */
  lemma MulDCStep(m: real, c: Color)
    ensures AddC(MulDC(m - 1.0, c), c) == MulDC(m, c)
  {
    assert c.red * (m - 1.0) + c.red == c.red * m;
    assert c.green * (m - 1.0) + c.green == c.green * m;
    assert c.blue * (m - 1.0) + c.blue == c.blue * m;
  }

  /** Scaling by `1 / n` undoes scaling by `n`. */
  lemma MulDCUndo(n: real, c: Color)
    requires n != 0.0
    ensures MulDC(1.0 / n, MulDC(n, c)) == c
  {
    ScaleBack(c.red, n);
    ScaleBack(c.green, n);
    ScaleBack(c.blue, n);
  }

  lemma Mul2CCommutative(a: Color, b: Color)
    ensures Mul2C(a, b) == Mul2C(b, a)
  {}

  /** Accumulating onto a base is the base plus the accumulated colours alone. */
  lemma {:induction false} AccumulateOntoBase(base: Color, cs: seq<Color>)
    ensures Accumulate(base, cs) == AddC(base, Accumulate(Black, cs))
  {
    if |cs| > 0 {
      var init := cs[..|cs| - 1];
      AccumulateOntoBase(base, init);
      AddCAssociative(base, Accumulate(Black, init), cs[|cs| - 1]);
    }
  }

  /** Adding only black leaves the base unchanged. */
  lemma {:induction false} AccumulateBlacks(base: Color, cs: seq<Color>)
    requires forall j | 0 <= j < |cs| :: cs[j] == Black
    ensures Accumulate(base, cs) == base
  {
    if |cs| > 0 {
      AccumulateBlacks(base, cs[..|cs| - 1]);
    }
  }

  /** Accumulating one more colour adds it to the running total. */
  lemma AccumulateStep(base: Color, cs: seq<Color>, i: nat)
    requires i < |cs|
    ensures Accumulate(base, cs[..i + 1]) == AddC(Accumulate(base, cs[..i]), cs[i])
  {
    assert cs[..i + 1][..i] == cs[..i];
  }

  // ---------------------------------------------------------------------
  // Points

  lemma EqReflexive(a: Point)
    ensures Eq(a, a)
  {}

  lemma EqSymmetric(a: Point, b: Point)
    ensures Eq(a, b) <==> Eq(b, a)
  {}

  /** Differences below the precision are equal; one of 1e-3 or more is not. */
  lemma EqTolerance(a: Point, b: Point)
    ensures Abs(a.x - b.x) < Precision && Abs(a.y - b.y) < Precision && Abs(a.z - b.z) < Precision ==> Eq(a, b)
    ensures Abs(a.x - b.x) >= 0.001 || Abs(a.y - b.y) >= 0.001 || Abs(a.z - b.z) >= 0.001 ==> !Eq(a, b)
  {}

  /** The distance between two points is symmetric and is the length of their difference. */
  lemma {:induction false} Len2pSymmetric(lib: MathLib, a: Point, b: Point)
    ensures Len2p(lib, a, b) == Len2p(lib, b, a)
    ensures Len2p(lib, a, b) == Len(lib, Sub(a, b))
  {
    var d := Point(Abs(a.x - b.x), Abs(a.y - b.y), Abs(a.z - b.z));
    var e := Point(Abs(b.x - a.x), Abs(b.y - a.y), Abs(b.z - a.z));
    assert d == e;
    var s := Sub(a, b);
    AbsSquare(s.x);
    AbsSquare(s.y);
    AbsSquare(s.z);
    assert Dot(d, d) == Dot(s, s);
  }

  /** The length of a line is the distance between its two end points. */
  lemma LenLIsLen2p(lib: MathLib, a: Line)
    ensures LenL(lib, a) == Len2p(lib, a.origin, a.destiny)
  {}

  lemma SubAddInverse(a: Point, b: Point)
    ensures Add(Sub(a, b), b) == a && Sub(Add(a, b), b) == a
  {}

  lemma DvUndoesMul(k: real, a: Point)
    requires k != 0.0
    ensures Dv(Mul(k, a), k) == a
  {}

  /** The dot product is linear in its first operand. */
  lemma DotAddMul(u: Point, t: real, l: Point, n: Point)
    ensures Dot(Add(u, Mul(t, l)), n) == Dot(u, n) + t * Dot(l, n)
  {
    assert (u.x + l.x * t) * n.x == u.x * n.x + t * (l.x * n.x);
    assert (u.y + l.y * t) * n.y == u.y * n.y + t * (l.y * n.y);
    assert (u.z + l.z * t) * n.z == u.z * n.z + t * (l.z * n.z);
  }

  lemma DotSubSwap(a: Point, b: Point, n: Point)
    ensures Dot(Sub(a, b), n) == -Dot(Sub(b, a), n)
  {
    assert (a.x - b.x) * n.x == -((b.x - a.x) * n.x);
    assert (a.y - b.y) * n.y == -((b.y - a.y) * n.y);
    assert (a.z - b.z) * n.z == -((b.z - a.z) * n.z);
  }

  /** Going from `m` to `a` by way of `b`: the dot products with `n` add up. */
  lemma DotSubChain(a: Point, b: Point, m: Point, n: Point)
    ensures Dot(Sub(a, m), n) == Dot(Sub(a, b), n) + Dot(Sub(b, m), n)
  {
    assert (a.x - m.x) * n.x == (a.x - b.x) * n.x + (b.x - m.x) * n.x;
    assert (a.y - m.y) * n.y == (a.y - b.y) * n.y + (b.y - m.y) * n.y;
    assert (a.z - m.z) * n.z == (a.z - b.z) * n.z + (b.z - m.z) * n.z;
  }

  /** The cross product is orthogonal to both of its operands. */
  lemma CrossOrthogonal(a: Point, b: Point)
    ensures Dot(Cross(a, b), a) == 0.0 && Dot(Cross(a, b), b) == 0.0
  {}

  /** A square root of a square is the absolute value. */
  lemma SqrtOfSquare(lib: MathLib, t: real)
    requires SoundSqrt(lib)
    ensures lib.sqrt(t * t) == Abs(t)
  {
    AbsSquare(t);
    SquareNonNegative(t);
    SquareRootUnique(lib.sqrt(t * t), Abs(t));
  }

  lemma SqrtPositive(lib: MathLib, x: real)
    requires SoundSqrt(lib) && 0.0 < x
    ensures 0.0 < lib.sqrt(x)
  {
    var s := lib.sqrt(x);
    assert 0.0 <= s && s * s == x;
  }

  /** The squared length of a non-zero vector is positive. */
  lemma DotSelfPositive(d: Point)
    requires d != Zero
    ensures 0.0 < Dot(d, d)
  {
    SquareNonNegative(d.x);
    SquareNonNegative(d.y);
    SquareNonNegative(d.z);
    if d.x != 0.0 {
      SquareStrict(0.0, Abs(d.x));
      AbsSquare(d.x);
    } else if d.y != 0.0 {
      SquareStrict(0.0, Abs(d.y));
      AbsSquare(d.y);
    } else {
      SquareStrict(0.0, Abs(d.z));
      AbsSquare(d.z);
    }
  }

  /** The direction of a line of non-zero length is a unit vector. */
  lemma DirectionIsUnit(lib: MathLib, a: Line)
    requires SoundSqrt(lib) && a.origin != a.destiny
    ensures Dot(Direction(lib, a), Direction(lib, a)) == 1.0
    ensures Len(lib, Direction(lib, a)) == 1.0
  {
    var d := Sub(a.destiny, a.origin);
    assert d != Zero;
    DotSelfPositive(d);
    var n := Dot(d, d);
    var s := lib.sqrt(n);
    SqrtPositive(lib, n);
    var u := Direction(lib, a);
    QuotTimes(d.x, s);
    QuotTimes(d.y, s);
    QuotTimes(d.z, s);
    assert u.x * s == d.x && u.y * s == d.y && u.z * s == d.z;
    assert Dot(u, u) * (s * s) == n;
    assert s * s == n;
    Cancel(Dot(u, u), 1.0, s * s);
    SqrtOfSquare(lib, 1.0);
  }

  /** On a unit direction, moving by `t` covers squared distance `t * t`. */
  lemma AlongSquare(origin: Point, l: Point, t: real)
    requires Dot(l, l) == 1.0
    ensures var d := Sub(origin, Add(origin, Mul(t, l)));
      Dot(d, d) == t * t
  {
    var d := Sub(origin, Add(origin, Mul(t, l)));
    ScaledUnitSquare(l.x, l.y, l.z, t, d.x, d.y, d.z);
  }

  /** On a unit direction, the point at parameter t lies at distance |t| from the origin. */
  lemma LenAlong(lib: MathLib, origin: Point, l: Point, t: real)
    requires SoundSqrt(lib) && Dot(l, l) == 1.0
    ensures Len2p(lib, origin, Add(origin, Mul(t, l))) == Abs(t)
  {
    AlongSquare(origin, l, t);
    Len2pSymmetric(lib, origin, Add(origin, Mul(t, l)));
    SqrtOfSquare(lib, t);
  }
}
