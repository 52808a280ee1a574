/**
 * The ray/sphere test `intersectSphere` (c/ray-cast.h:270-315).
 *
 * The ray starts at `origin` and runs along the unit vector `l`. Its points
 * are `origin + t * l`; the sphere is hit where
 * `t * t + 2 * b * t + c - radius * radius == 0`, with `oc = origin - centre`,
 * `b = l . oc` and `c = oc . oc`, that is at `t = -b +/- sqrt(delta)` with
 * `delta = b * b - c + radius * radius`.
 */
module Spheres {
  import opened Arith
  import opened Vectors
  import opened Scene

  /** The point at parameter `t` of the ray from `origin` along `l`. */
  function Along(origin: Point, l: Point, t: real): Point {
    Add(origin, Mul(t, l))
  }

  function HalfB(l: Point, origin: Point, s: Sphere): real {
    Dot(l, Sub(origin, s.position))
  }

  /** The squared distance from the ray's origin to the centre. */
  function CentreDist2(origin: Point, s: Sphere): real {
    var oc := Sub(origin, s.position);
    Dot(oc, oc)
  }

  function Discriminant(l: Point, origin: Point, s: Sphere): real {
    var b := HalfB(l, origin, s);
    b * b - CentreDist2(origin, s) + s.radius * s.radius
  }

  /** `roots[0]`, the far root. */
  function Root0(lib: MathLib, l: Point, origin: Point, s: Sphere): real {
    -HalfB(l, origin, s) + lib.sqrt(Discriminant(l, origin, s))
  }

  /** `roots[1]`, the near root. */
  function Root1(lib: MathLib, l: Point, origin: Point, s: Sphere): real {
    -HalfB(l, origin, s) - lib.sqrt(Discriminant(l, origin, s))
  }

  /**
   * `intersectSphere`. A (nearly) tangent ray misses; so does a ray for which
   * both roots lie (nearly) behind the origin. Otherwise root 0 is taken when
   * it lies in front, root 1 when it does not, and then root 1 replaces it
   * whenever its point is nearer to the origin. A negative discriminant
   * gives NaN roots in C, a length that every caller rejects; here it is a
   * miss.
   */
  function IntersectSphere(lib: MathLib, l: Point, origin: Point, s: Sphere): (r: Hit)
    ensures r.normal == Zero
    ensures r != NoHit ==> Precision <= Discriminant(l, origin, s)
    ensures r == NoHit || r.p == Along(origin, l, Root0(lib, l, origin, s)) || r.p == Along(origin, l, Root1(lib, l, origin, s))
  {
    var delta := Discriminant(l, origin, s);
    if Abs(delta) < Precision || delta < 0.0 then NoHit
    else
      var r0 := Root0(lib, l, origin, s);
      var r1 := Root1(lib, l, origin, s);
      var s0 := Along(origin, l, r0);
      var s1 := Along(origin, l, r1);
      var len0 := Len2p(lib, origin, s0);
      var len1 := Len2p(lib, origin, s1);
      if r0 < Precision && r1 < Precision then NoHit
      else
        var index := if r0 < Precision then 1 else 0;
        var index := if len1 < len0 then 1 else index;
        if index == 0 then Hit(s0, Zero, len0) else Hit(s1, Zero, len1)
  }

  lemma Len2pNonNegative(lib: MathLib, a: Point, b: Point)
    requires SoundSqrt(lib)
    ensures 0.0 <= Len2p(lib, a, b)
  {
    var d := Point(Abs(a.x - b.x), Abs(a.y - b.y), Abs(a.z - b.z));
    SquareNonNegative(d.x);
    SquareNonNegative(d.y);
    SquareNonNegative(d.z);
    assert 0.0 <= Dot(d, d);
  }

  /**
   * The sphere test misses exactly when the ray is (nearly) tangent, misses
   * the sphere altogether, or finds both roots (nearly) behind its origin.
   */
  lemma SphereMissCases(lib: MathLib, l: Point, origin: Point, s: Sphere)
    requires SoundSqrt(lib)
    ensures var delta := Discriminant(l, origin, s);
      IntersectSphere(lib, l, origin, s).len == -1.0 <==>
        Abs(delta) < Precision || delta < 0.0 ||
        (Root0(lib, l, origin, s) < Precision && Root1(lib, l, origin, s) < Precision)
  {
    var r0 := Root0(lib, l, origin, s);
    var r1 := Root1(lib, l, origin, s);
    Len2pNonNegative(lib, origin, Along(origin, l, r0));
    Len2pNonNegative(lib, origin, Along(origin, l, r1));
  }

  /**
   * On a unit direction the two lengths the test compares are the distances
   * |t| of the roots, so the choice is: the root nearer to the origin in
   * absolute distance, and root 0 only when it lies in front and is not
   * farther than root 1. The case `r0 < Precision` mirrors the source's
   * branch that falls back to root 1; with a sound `sqrt` root 1 never
   * exceeds root 0, so under these preconditions that branch never runs.
   */
  lemma SphereRootChoice(lib: MathLib, l: Point, origin: Point, s: Sphere)
    requires SoundSqrt(lib) && Dot(l, l) == 1.0
    requires Precision <= Discriminant(l, origin, s)
    requires Precision <= Root0(lib, l, origin, s) || Precision <= Root1(lib, l, origin, s)
    ensures var r0 := Root0(lib, l, origin, s);
      var r1 := Root1(lib, l, origin, s);
      Abs(r1) < Abs(r0) || r0 < Precision ==>
        IntersectSphere(lib, l, origin, s) == Hit(Along(origin, l, r1), Zero, Abs(r1))
    ensures var r0 := Root0(lib, l, origin, s);
      var r1 := Root1(lib, l, origin, s);
      Abs(r0) <= Abs(r1) && Precision <= r0 ==>
        IntersectSphere(lib, l, origin, s) == Hit(Along(origin, l, r0), Zero, Abs(r0))
  {
    var r0 := Root0(lib, l, origin, s);
    var r1 := Root1(lib, l, origin, s);
    LenAlong(lib, origin, l, r0);
    LenAlong(lib, origin, l, r1);
  }

  /**
   * Seen from outside the sphere, a hit is always the near root, and it
   * lies in front of the origin.
   */
  lemma SphereFromOutside(lib: MathLib, l: Point, origin: Point, s: Sphere)
    requires SoundSqrt(lib) && Dot(l, l) == 1.0
    requires s.radius * s.radius < CentreDist2(origin, s)
    ensures var r := IntersectSphere(lib, l, origin, s);
      var r1 := Root1(lib, l, origin, s);
      r == NoHit || (0.0 < r1 <= Root0(lib, l, origin, s) && r == Hit(Along(origin, l, r1), Zero, r1))
  {
    var b := HalfB(l, origin, s);
    var delta := Discriminant(l, origin, s);
    var sq := lib.sqrt(delta);
    var r0 := Root0(lib, l, origin, s);
    var r1 := Root1(lib, l, origin, s);
    if Precision <= delta && (Precision <= r0 || Precision <= r1) {
      assert sq * sq == delta;
      AbsSquare(b);
      assert delta < Abs(b) * Abs(b);
      SquareLess(sq, Abs(b));
      assert b < 0.0;
      SphereRootChoice(lib, l, origin, s);
    } else {
      SphereMissCases(lib, l, origin, s);
    }
  }

  /**
   * Seen from inside the sphere, a ray heading towards the centre that is
   * not nearly tangent is reported as hitting the sphere BEHIND its origin:
   * the near root is negative, and it is chosen because its point is nearer.
   */
  lemma SphereFromInside(lib: MathLib, l: Point, origin: Point, s: Sphere)
    requires SoundSqrt(lib) && Dot(l, l) == 1.0
    requires CentreDist2(origin, s) < s.radius * s.radius
    requires HalfB(l, origin, s) < 0.0 && Precision <= Discriminant(l, origin, s)
    ensures var r1 := Root1(lib, l, origin, s);
      r1 < 0.0 && IntersectSphere(lib, l, origin, s) == Hit(Along(origin, l, r1), Zero, -r1)
  {
    var b := HalfB(l, origin, s);
    var delta := Discriminant(l, origin, s);
    var sq := lib.sqrt(delta);
    assert sq * sq == delta;
    AbsSquare(b);
    assert Abs(b) * Abs(b) < delta;
    SquareLess(Abs(b), sq);
    if sq < Precision {
      SquareStrict(sq, Precision);
    }
    assert Precision <= Root0(lib, l, origin, s);
    SphereRootChoice(lib, l, origin, s);
  }

  /** From distance `d` back along the unit vector `l`, the quadratic's terms. */
  lemma AxialTerms(l: Point, s: Sphere, d: real)
    requires Dot(l, l) == 1.0
    ensures var origin := Sub(s.position, Mul(d, l));
      HalfB(l, origin, s) == -d && CentreDist2(origin, s) == d * d &&
      Discriminant(l, origin, s) == s.radius * s.radius
  {
    var origin := Sub(s.position, Mul(d, l));
    var oc := Sub(origin, s.position);
    assert oc == Point(-d * l.x, -d * l.y, -d * l.z);
    assert Dot(l, oc) == -d * (l.x * l.x + l.y * l.y + l.z * l.z);
    assert Dot(oc, oc) == d * d * (l.x * l.x + l.y * l.y + l.z * l.z);
  }

  /**
   * A ray aimed at the centre from distance `d` outside the sphere is
   * reported as hitting it, at distance `d - radius`: the near point of the
   * sphere on that line. (A sphere whose squared radius is below the
   * precision is a tangent miss to every ray.)
   */
  lemma SphereAxialHit(lib: MathLib, l: Point, s: Sphere, d: real)
    requires SoundSqrt(lib) && Dot(l, l) == 1.0
    requires 0.0 < s.radius < d && Precision <= s.radius * s.radius
    ensures var origin := Sub(s.position, Mul(d, l));
      IntersectSphere(lib, l, origin, s) == Hit(Along(origin, l, d - s.radius), Zero, d - s.radius)
  {
    var origin := Sub(s.position, Mul(d, l));
    var r := s.radius;
    AxialTerms(l, s, d);
    SqrtOfSquare(lib, r);
    assert lib.sqrt(Discriminant(l, origin, s)) == r;
    assert Root0(lib, l, origin, s) == d + r;
    assert Root1(lib, l, origin, s) == d - r;
    SquareStrict(r, d);
    assert s.radius * s.radius < CentreDist2(origin, s);
    if r < Precision {
      SquareStrict(r, Precision);
    }
    assert Precision <= Root0(lib, l, origin, s);
    SphereMissCases(lib, l, origin, s);
    SphereFromOutside(lib, l, origin, s);
  }

  /** `q` lies on the surface of `s`. */
  predicate OnSphere(q: Point, s: Sphere) {
    var d := Sub(q, s.position);
    Dot(d, d) == s.radius * s.radius
  }

  /**
   * The quadratic in coordinates: with `|l| = 1`, `oc = (ox, oy, oz)` and
   * `b = l . oc`, a root of `(t + b)^2 = b^2 - |oc|^2 + r^2` puts `q = oc + t * l`
   * at distance `r`.
   */
  lemma SphereIdentity(ox: real, oy: real, oz: real, lx: real, ly: real, lz: real, t: real, r: real,
                       qx: real, qy: real, qz: real)
    requires lx * lx + ly * ly + lz * lz == 1.0
    requires qx == ox + lx * t && qy == oy + ly * t && qz == oz + lz * t
    requires (t + (lx * ox + ly * oy + lz * oz)) * (t + (lx * ox + ly * oy + lz * oz)) ==
      (lx * ox + ly * oy + lz * oz) * (lx * ox + ly * oy + lz * oz) - (ox * ox + oy * oy + oz * oz) + r * r
    ensures qx * qx + qy * qy + qz * qz == r * r
  {
    var b := lx * ox + ly * oy + lz * oz;
    assert (t + b) * (t + b) == t * t + 2.0 * t * b + b * b;
    SquareSum(ox, t, lx);
    SquareSum(oy, t, ly);
    SquareSum(oz, t, lz);
    Distribute3(2.0 * t, lx * ox, ly * oy, lz * oz);
    Distribute3(t * t, lx * lx, ly * ly, lz * lz);
  }

  /** A parameter solving the sphere's quadratic gives a point on its surface. */
  lemma OnSphereAt(l: Point, origin: Point, s: Sphere, t: real)
    requires Dot(l, l) == 1.0
    requires (t + HalfB(l, origin, s)) * (t + HalfB(l, origin, s)) == Discriminant(l, origin, s)
    ensures OnSphere(Along(origin, l, t), s)
  {
    var oc := Sub(origin, s.position);
    var q := Sub(Along(origin, l, t), s.position);
    SphereIdentity(oc.x, oc.y, oc.z, l.x, l.y, l.z, t, s.radius, q.x, q.y, q.z);
  }

  /** When the quadratic has real roots, both of them give points on the sphere. */
  lemma RootsOnSphere(lib: MathLib, l: Point, origin: Point, s: Sphere)
    requires SoundSqrt(lib) && Dot(l, l) == 1.0
    requires 0.0 <= Discriminant(l, origin, s)
    ensures OnSphere(Along(origin, l, Root0(lib, l, origin, s)), s)
    ensures OnSphere(Along(origin, l, Root1(lib, l, origin, s)), s)
  {
    var b := HalfB(l, origin, s);
    var sq := lib.sqrt(Discriminant(l, origin, s));
    var r0 := Root0(lib, l, origin, s);
    var r1 := Root1(lib, l, origin, s);
    assert r0 + b == sq && r1 + b == -sq;
    OnSphereAt(l, origin, s, r0);
    OnSphereAt(l, origin, s, r1);
  }

  /** Every point the sphere test reports lies on the sphere. */
  lemma SphereHitOnSurface(lib: MathLib, l: Point, origin: Point, s: Sphere)
    requires SoundSqrt(lib) && Dot(l, l) == 1.0
    requires IntersectSphere(lib, l, origin, s) != NoHit
    ensures OnSphere(IntersectSphere(lib, l, origin, s).p, s)
  {
    RootsOnSphere(lib, l, origin, s);
  }
}
