/**
 * The ray/cube test: `intersectPlane` and `intersectCube`
 * (c/ray-cast.h:347-405). Each of the six faces is a plane through a corner
 * `pivot`, spanned towards two neighbouring corners `a` and `b`; a face that
 * the ray meets in front of its origin, inside the cube's box, replaces the
 * running result when that result is still empty or strictly farther.
 */
module Cubes {
  import opened Arith
  import opened Vectors
  import opened Scene
  import opened Spheres

  /** The (unnormalised) normal of the face spanned from `pivot` towards `a` and `b`. */
  function FaceNormal(lib: MathLib, pivot: Point, a: Point, b: Point): Point
    requires pivot != a && pivot != b
  {
    Cross(Direction(lib, Line(pivot, a)), Direction(lib, Line(pivot, b)))
  }

  /** The ray parameter at which the ray meets the face's plane. */
  function FaceParam(pivot: Point, n: Point, origin: Point, l: Point): real
    requires Dot(l, n) != 0.0
  {
    Dot(Sub(pivot, origin), n) / Dot(l, n)
  }

  /** The box test: no coordinate of `p` lies more than `half` (plus the tolerance) from `center`. */
  predicate InBox(half: real, center: Point, p: Point) {
    var q := Sub(p, center);
    !(Abs(q.x) - half > Precision || Abs(q.y) - half > Precision || Abs(q.z) - half > Precision)
  }

  /**
   * What one face offers: nothing when the ray runs parallel to it, meets
   * its plane (nearly) behind the origin or outside the box; otherwise the
   * meeting point, the face normal and the distance from the origin. A face
   * whose corners coincide (a cube of side 0) has no normal: C computes NaN
   * there, which the scans reject; here the face offers nothing.
   */
  function FaceHit(lib: MathLib, half: real, center: Point, pivot: Point, a: Point, b: Point,
                   origin: Point, l: Point): (r: Option<Hit>)
    ensures r.Some? ==> r.value.len == Len2p(lib, r.value.p, origin)
  {
    if pivot == a || pivot == b then None
    else
      var n := FaceNormal(lib, pivot, a, b);
      if Dot(l, n) == 0.0 then None
      else
        var t := FaceParam(pivot, n, origin, l);
        if t < Precision then None
        else
          var p := Along(origin, l, t);
          if !InBox(half, center, p) then None
          else Some(Hit(p, n, Len2p(lib, p, origin)))
  }

  /** The update through `ret`: an offered hit wins when `ret` is empty or strictly farther. */
  function Keep(ret: Hit, offered: Option<Hit>): (r: Hit)
    ensures r == ret || offered == Some(r)
    ensures offered.None? ==> r == ret
  {
    match offered
    case None => ret
    case Some(h) => if ret.len == -1.0 || h.len - ret.len < 0.0 then h else ret
  }

  /**
   * The running result after offering `offers` in order, starting from no
   * hit. `KeepAll` and `KeepLast` call each other so that the solver opens
   * one offer at a time.
   */
  function KeepAll(offers: seq<Option<Hit>>): Hit
    decreases |offers|, 1
  {
    if |offers| == 0 then NoHit else KeepLast(offers)
  }

  function KeepLast(offers: seq<Option<Hit>>): Hit
    requires |offers| > 0
    decreases |offers|, 0
  {
    Keep(KeepAll(offers[..|offers| - 1]), offers[|offers| - 1])
  }

  /** Offering one more face updates the running result by `Keep`. */
  lemma KeepAllStep(offers: seq<Option<Hit>>, i: nat)
    requires i < |offers|
    ensures KeepAll(offers[..i + 1]) == Keep(KeepAll(offers[..i]), offers[i])
  {
    assert offers[..i + 1][..i] == offers[..i];
  }

  /** The `struct intersection` that `intersectPlane` updates through its pointer. */
  class HitRecord {
    var p: Point
    var normal: Point
    var len: real

    constructor ()
      ensures Value() == NoHit
    {
      p := Zero;
      normal := Zero;
      len := -1.0;
    }

    function Value(): Hit
      reads this
    {
      Hit(p, normal, len)
    }
  }

  /** `intersectPlane`: offers one face to `ret`. */
  method IntersectPlane(lib: MathLib, half: real, center: Point, pivot: Point, a: Point, b: Point,
                        origin: Point, l: Point, ret: HitRecord)
    modifies ret
    ensures ret.Value() == Keep(old(ret.Value()), FaceHit(lib, half, center, pivot, a, b, origin, l))
  {
    if pivot == a || pivot == b {
      return;
    }
    var n := Cross(Direction(lib, Line(pivot, a)), Direction(lib, Line(pivot, b)));
    var denominator := Dot(l, n);
    if denominator != 0.0 {
      var numerator := Dot(Sub(pivot, origin), n);
      numerator := numerator / denominator;
      if numerator < Precision {
        return;
      }
      var p := Add(origin, Mul(numerator, l));
      var q := Sub(p, center);
      var x := Abs(q.x) - half;
      var y := Abs(q.y) - half;
      var z := Abs(q.z) - half;
      if x > Precision || y > Precision || z > Precision {
        return;
      }
      var len := Len2p(lib, p, origin);
      if ret.len == -1.0 || len - ret.len < 0.0 {
        ret.p := p;
        ret.normal := n;
        ret.len := len;
      }
    }
  }

  /** The eight corners of a cube, named as in the source. */
  datatype Corners = Corners(a: Point, b: Point, c: Point, d: Point, e: Point, f: Point, g: Point, h: Point)

  /** Half the side of a cube: the distance from its centre to each face. */
  function Half(cube: Cube): real {
    cube.side * 0.5
  }

  function CornersOf(cube: Cube): Corners {
    var half := Half(cube);
    var o := cube.position;
    Corners(Add(o, Point(half, half, -half)), Add(o, Point(half, half, half)),
            Add(o, Point(-half, half, -half)), Add(o, Point(-half, half, half)),
            Add(o, Point(-half, -half, half)), Add(o, Point(half, -half, half)),
            Add(o, Point(half, -half, -half)), Add(o, Point(-half, -half, -half)))
  }

  /** A face: the plane through the corner `pivot`, spanned towards the corners `a` and `b`. */
  datatype Face = Face(pivot: Point, a: Point, b: Point)

  /** The six faces in the order they are offered: top, bottom, front, back, right, left. */
  function CubeFaces(cube: Cube): (faces: seq<Face>)
    ensures |faces| == 6
  {
    var k := CornersOf(cube);
    [Face(k.d, k.b, k.c), Face(k.g, k.f, k.h), Face(k.b, k.d, k.f),
     Face(k.h, k.c, k.g), Face(k.a, k.b, k.g), Face(k.e, k.d, k.h)]
  }

  /** What each face offers to a ray, in order. */
  function Offers(lib: MathLib, half: real, center: Point, faces: seq<Face>, origin: Point, l: Point)
    : (offers: seq<Option<Hit>>)
    ensures |offers| == |faces|
  {
    seq(|faces|, j requires 0 <= j < |faces| =>
      FaceHit(lib, half, center, faces[j].pivot, faces[j].a, faces[j].b, origin, l))
  }

  /** `intersectCube`, as a function: the running result after the six faces in turn. */
  function CubeHit(lib: MathLib, l: Point, origin: Point, cube: Cube): Hit {
    KeepAll(Offers(lib, Half(cube), cube.position, CubeFaces(cube), origin, l))
  }

  /** The running result over the six faces, written out face by face. */
  lemma CubeHitUnrolled(lib: MathLib, l: Point, origin: Point, cube: Cube)
    ensures var half := Half(cube);
      var o := cube.position;
      var k := CornersOf(cube);
      CubeHit(lib, l, origin, cube) ==
        Keep(Keep(Keep(Keep(Keep(Keep(NoHit,
          FaceHit(lib, half, o, k.d, k.b, k.c, origin, l)),
          FaceHit(lib, half, o, k.g, k.f, k.h, origin, l)),
          FaceHit(lib, half, o, k.b, k.d, k.f, origin, l)),
          FaceHit(lib, half, o, k.h, k.c, k.g, origin, l)),
          FaceHit(lib, half, o, k.a, k.b, k.g, origin, l)),
          FaceHit(lib, half, o, k.e, k.d, k.h, origin, l))
  {
    var offers := Offers(lib, Half(cube), cube.position, CubeFaces(cube), origin, l);
    assert offers[..0] == [];
    KeepAllStep(offers, 0);
    KeepAllStep(offers, 1);
    KeepAllStep(offers, 2);
    KeepAllStep(offers, 3);
    KeepAllStep(offers, 4);
    KeepAllStep(offers, 5);
    assert offers[..6] == offers;
  }

  /** `intersectCube`: offers the six faces in turn to a fresh record. */
  method IntersectCube(lib: MathLib, l: Point, origin: Point, cube: Cube) returns (r: Hit)
    ensures r == CubeHit(lib, l, origin, cube)
  {
    var half := Half(cube);
    var k := CornersOf(cube);
    var a, b, c, d, e, f, g, h := k.a, k.b, k.c, k.d, k.e, k.f, k.g, k.h;

    var ret := new HitRecord();
    IntersectPlane(lib, half, cube.position, d, b, c, origin, l, ret);
    IntersectPlane(lib, half, cube.position, g, f, h, origin, l, ret);
    IntersectPlane(lib, half, cube.position, b, d, f, origin, l, ret);
    IntersectPlane(lib, half, cube.position, h, c, g, origin, l, ret);
    IntersectPlane(lib, half, cube.position, a, b, g, origin, l, ret);
    IntersectPlane(lib, half, cube.position, e, d, h, origin, l, ret);
    r := ret.Value();
    CubeHitUnrolled(lib, l, origin, cube);
  }

  /**
   * When every offered length is non-negative, the running result is empty
   * exactly when no face offers anything; otherwise it is an offered hit no
   * farther than any other, and strictly nearer than every earlier one
   * (the first of equally near faces wins).
   */
  lemma {:induction false} KeepAllIsFirstNearest(offers: seq<Option<Hit>>)
    requires forall j | 0 <= j < |offers| :: offers[j].Some? ==> 0.0 <= offers[j].value.len
    ensures KeepAll(offers).len == -1.0 <==> forall j | 0 <= j < |offers| :: offers[j].None?
    ensures forall j | 0 <= j < |offers| :: offers[j].Some? ==> KeepAll(offers).len <= offers[j].value.len
    ensures KeepAll(offers).len != -1.0 ==>
      exists k :: 0 <= k < |offers| && offers[k] == Some(KeepAll(offers)) &&
        forall j | 0 <= j < k :: offers[j].Some? ==> KeepAll(offers).len < offers[j].value.len
  {
    if |offers| > 0 {
      var init := offers[..|offers| - 1];
      KeepAllIsFirstNearest(init);
      var prev := KeepAll(init);
      var last := |offers| - 1;
      assert forall j | 0 <= j < last :: offers[j] == init[j];
      if prev.len != -1.0 {
        var k :| 0 <= k < |init| && init[k] == Some(prev) &&
          forall j | 0 <= j < k :: init[j].Some? ==> prev.len < init[j].value.len;
        if KeepAll(offers) == prev {
          assert offers[k] == Some(KeepAll(offers));
        } else {
          assert offers[last] == Some(KeepAll(offers));
        }
      } else if offers[last].Some? {
        assert offers[last] == Some(KeepAll(offers));
      }
    }
  }

  /** Every face offers a non-negative distance. */
  lemma FaceLengthsNonNegative(lib: MathLib, half: real, center: Point, faces: seq<Face>, origin: Point, l: Point)
    requires SoundSqrt(lib)
    ensures var offers := Offers(lib, half, center, faces, origin, l);
      forall j | 0 <= j < |offers| :: offers[j].Some? ==> 0.0 <= offers[j].value.len
  {
    var offers := Offers(lib, half, center, faces, origin, l);
    forall j | 0 <= j < |offers| && offers[j].Some?
      ensures 0.0 <= offers[j].value.len
    {
      Len2pNonNegative(lib, offers[j].value.p, origin);
    }
  }

  /**
   * `intersectCube` returns no hit exactly when no face offers one, and
   * otherwise the nearest offered face, the first of equally near ones.
   */
  lemma CubeHitNearestFace(lib: MathLib, l: Point, origin: Point, c: Cube)
    requires SoundSqrt(lib)
    ensures var offers := Offers(lib, Half(c), c.position, CubeFaces(c), origin, l);
      var r := CubeHit(lib, l, origin, c);
      (r.len == -1.0 <==> forall j | 0 <= j < 6 :: offers[j].None?) &&
      (forall j | 0 <= j < 6 :: offers[j].Some? ==> r.len <= offers[j].value.len) &&
      (r.len != -1.0 ==>
        exists k :: 0 <= k < 6 && offers[k] == Some(r) &&
          forall j | 0 <= j < k :: offers[j].Some? ==> r.len < offers[j].value.len)
  {
    FaceLengthsNonNegative(lib, Half(c), c.position, CubeFaces(c), origin, l);
    KeepAllIsFirstNearest(Offers(lib, Half(c), c.position, CubeFaces(c), origin, l));
  }

  /**
   * A face's hit lies in front of the origin, on the face's plane and inside
   * the box, and on a unit direction its length is its ray parameter.
   */
  lemma FaceHitGeometry(lib: MathLib, half: real, center: Point, pivot: Point, a: Point, b: Point,
                        origin: Point, l: Point)
    requires SoundSqrt(lib) && Dot(l, l) == 1.0
    requires FaceHit(lib, half, center, pivot, a, b, origin, l).Some?
    ensures pivot != a && pivot != b
    ensures var h := FaceHit(lib, half, center, pivot, a, b, origin, l).value;
      var n := FaceNormal(lib, pivot, a, b);
      Dot(l, n) != 0.0 &&
      Precision <= FaceParam(pivot, n, origin, l) &&
      h.p == Along(origin, l, FaceParam(pivot, n, origin, l)) &&
      h.normal == n &&
      h.len == FaceParam(pivot, n, origin, l) &&
      Dot(Sub(h.p, pivot), n) == 0.0 &&
      InBox(half, center, h.p)
  {
    var n := FaceNormal(lib, pivot, a, b);
    var t := FaceParam(pivot, n, origin, l);
    var p := Along(origin, l, t);
    var num := Dot(Sub(pivot, origin), n);
    var den := Dot(l, n);
    QuotTimes(num, den);
    assert t * den == num;
    assert Sub(p, pivot) == Add(Sub(origin, pivot), Mul(t, l));
    DotSubSwap(origin, pivot, n);
    DotAddMul(Sub(origin, pivot), t, l, n);
    LenAlong(lib, origin, l, t);
    Len2pSymmetric(lib, p, origin);
  }

  /** The outward unit normal of face `j` of `CubeFaces`: +y, -y, +z, -z, +x, -x in turn. */
  function OutwardNormal(j: int): Point {
    if j == 0 then Point(0.0, 1.0, 0.0)
    else if j == 1 then Point(0.0, -1.0, 0.0)
    else if j == 2 then Point(0.0, 0.0, 1.0)
    else if j == 3 then Point(0.0, 0.0, -1.0)
    else if j == 4 then Point(1.0, 0.0, 0.0)
    else Point(-1.0, 0.0, 0.0)
  }

  /** From `p` to `q` is `s > 0` times the unit vector `u`: the direction of the line is `u`. */
  lemma DirectionAlongAxis(lib: MathLib, p: Point, q: Point, s: real, u: Point)
    requires SoundSqrt(lib) && 0.0 < s && Dot(u, u) == 1.0
    requires p != q && Sub(q, p) == Mul(s, u)
    ensures Direction(lib, Line(p, q)) == u
  {
    var d := Sub(q, p);
    ScaledUnitSquare(u.x, u.y, u.z, -s, d.x, d.y, d.z);
    assert Dot(d, d) == s * s;
    SqrtOfSquare(lib, s);
    assert Len(lib, d) == s;
    DvUndoesMul(s, u);
  }

  /** The cross product of the unit edge directions of face `j`. */
  lemma AxisCross(j: int)
    requires 0 <= j < 6
    ensures j == 0 ==> Cross(Point(1.0, 0.0, 0.0), Point(0.0, 0.0, -1.0)) == Point(0.0, 1.0, 0.0)
    ensures j == 1 ==> Cross(Point(0.0, 0.0, 1.0), Point(-1.0, 0.0, 0.0)) == Point(0.0, -1.0, 0.0)
    ensures j == 2 ==> Cross(Point(-1.0, 0.0, 0.0), Point(0.0, -1.0, 0.0)) == Point(0.0, 0.0, 1.0)
    ensures j == 3 ==> Cross(Point(0.0, 1.0, 0.0), Point(1.0, 0.0, 0.0)) == Point(0.0, 0.0, -1.0)
    ensures j == 4 ==> Cross(Point(0.0, 0.0, 1.0), Point(0.0, -1.0, 0.0)) == Point(1.0, 0.0, 0.0)
    ensures j == 5 ==> Cross(Point(0.0, 1.0, 0.0), Point(0.0, 0.0, -1.0)) == Point(-1.0, 0.0, 0.0)
  {
    if j == 0 {
      assert Cross(Point(1.0, 0.0, 0.0), Point(0.0, 0.0, -1.0)) == Point(0.0, 1.0, 0.0);
    } else if j == 1 {
      assert Cross(Point(0.0, 0.0, 1.0), Point(-1.0, 0.0, 0.0)) == Point(0.0, -1.0, 0.0);
    } else if j == 2 {
      assert Cross(Point(-1.0, 0.0, 0.0), Point(0.0, -1.0, 0.0)) == Point(0.0, 0.0, 1.0);
    } else if j == 3 {
      assert Cross(Point(0.0, 1.0, 0.0), Point(1.0, 0.0, 0.0)) == Point(0.0, 0.0, -1.0);
    } else if j == 4 {
      assert Cross(Point(0.0, 0.0, 1.0), Point(0.0, -1.0, 0.0)) == Point(1.0, 0.0, 0.0);
    } else {
      assert Cross(Point(0.0, 1.0, 0.0), Point(0.0, 0.0, -1.0)) == Point(-1.0, 0.0, 0.0);
    }
  }

  /** The top face (pivot d, towards b and c) has the outward normal +y. */
  lemma TopFaceNormal(lib: MathLib, c: Cube)
    requires SoundSqrt(lib) && 0.0 < c.side
    ensures var f := CubeFaces(c)[0];
      f.pivot != f.a && f.pivot != f.b && FaceNormal(lib, f.pivot, f.a, f.b) == Point(0.0, 1.0, 0.0)
  {
    var k := CornersOf(c);
    assert CubeFaces(c)[0] == Face(k.d, k.b, k.c);
    assert k.d != k.b && Direction(lib, Line(k.d, k.b)) == Point(1.0, 0.0, 0.0) by {
      assert k.d != k.b && Sub(k.b, k.d) == Mul(c.side, Point(1.0, 0.0, 0.0));
      DirectionAlongAxis(lib, k.d, k.b, c.side, Point(1.0, 0.0, 0.0));
    }
    assert k.d != k.c && Direction(lib, Line(k.d, k.c)) == Point(0.0, 0.0, -1.0) by {
      assert k.d != k.c && Sub(k.c, k.d) == Mul(c.side, Point(0.0, 0.0, -1.0));
      DirectionAlongAxis(lib, k.d, k.c, c.side, Point(0.0, 0.0, -1.0));
    }
    AxisCross(0);
  }

  /** The bottom face (pivot g, towards f and h) has the outward normal -y. */
  lemma BottomFaceNormal(lib: MathLib, c: Cube)
    requires SoundSqrt(lib) && 0.0 < c.side
    ensures var f := CubeFaces(c)[1];
      f.pivot != f.a && f.pivot != f.b && FaceNormal(lib, f.pivot, f.a, f.b) == Point(0.0, -1.0, 0.0)
  {
    var k := CornersOf(c);
    assert CubeFaces(c)[1] == Face(k.g, k.f, k.h);
    assert k.g != k.f && Direction(lib, Line(k.g, k.f)) == Point(0.0, 0.0, 1.0) by {
      assert k.g != k.f && Sub(k.f, k.g) == Mul(c.side, Point(0.0, 0.0, 1.0));
      DirectionAlongAxis(lib, k.g, k.f, c.side, Point(0.0, 0.0, 1.0));
    }
    assert k.g != k.h && Direction(lib, Line(k.g, k.h)) == Point(-1.0, 0.0, 0.0) by {
      assert k.g != k.h && Sub(k.h, k.g) == Mul(c.side, Point(-1.0, 0.0, 0.0));
      DirectionAlongAxis(lib, k.g, k.h, c.side, Point(-1.0, 0.0, 0.0));
    }
    AxisCross(1);
  }

  /** The front face (pivot b, towards d and f) has the outward normal +z. */
  lemma FrontFaceNormal(lib: MathLib, c: Cube)
    requires SoundSqrt(lib) && 0.0 < c.side
    ensures var f := CubeFaces(c)[2];
      f.pivot != f.a && f.pivot != f.b && FaceNormal(lib, f.pivot, f.a, f.b) == Point(0.0, 0.0, 1.0)
  {
    var k := CornersOf(c);
    assert CubeFaces(c)[2] == Face(k.b, k.d, k.f);
    assert k.b != k.d && Direction(lib, Line(k.b, k.d)) == Point(-1.0, 0.0, 0.0) by {
      assert k.b != k.d && Sub(k.d, k.b) == Mul(c.side, Point(-1.0, 0.0, 0.0));
      DirectionAlongAxis(lib, k.b, k.d, c.side, Point(-1.0, 0.0, 0.0));
    }
    assert k.b != k.f && Direction(lib, Line(k.b, k.f)) == Point(0.0, -1.0, 0.0) by {
      assert k.b != k.f && Sub(k.f, k.b) == Mul(c.side, Point(0.0, -1.0, 0.0));
      DirectionAlongAxis(lib, k.b, k.f, c.side, Point(0.0, -1.0, 0.0));
    }
    AxisCross(2);
  }

  /** The back face (pivot h, towards c and g) has the outward normal -z. */
  lemma BackFaceNormal(lib: MathLib, c: Cube)
    requires SoundSqrt(lib) && 0.0 < c.side
    ensures var f := CubeFaces(c)[3];
      f.pivot != f.a && f.pivot != f.b && FaceNormal(lib, f.pivot, f.a, f.b) == Point(0.0, 0.0, -1.0)
  {
    var k := CornersOf(c);
    assert CubeFaces(c)[3] == Face(k.h, k.c, k.g);
    assert k.h != k.c && Direction(lib, Line(k.h, k.c)) == Point(0.0, 1.0, 0.0) by {
      assert k.h != k.c && Sub(k.c, k.h) == Mul(c.side, Point(0.0, 1.0, 0.0));
      DirectionAlongAxis(lib, k.h, k.c, c.side, Point(0.0, 1.0, 0.0));
    }
    assert k.h != k.g && Direction(lib, Line(k.h, k.g)) == Point(1.0, 0.0, 0.0) by {
      assert k.h != k.g && Sub(k.g, k.h) == Mul(c.side, Point(1.0, 0.0, 0.0));
      DirectionAlongAxis(lib, k.h, k.g, c.side, Point(1.0, 0.0, 0.0));
    }
    AxisCross(3);
  }

  /** The right face (pivot a, towards b and g) has the outward normal +x. */
  lemma RightFaceNormal(lib: MathLib, c: Cube)
    requires SoundSqrt(lib) && 0.0 < c.side
    ensures var f := CubeFaces(c)[4];
      f.pivot != f.a && f.pivot != f.b && FaceNormal(lib, f.pivot, f.a, f.b) == Point(1.0, 0.0, 0.0)
  {
    var k := CornersOf(c);
    assert CubeFaces(c)[4] == Face(k.a, k.b, k.g);
    assert k.a != k.b && Direction(lib, Line(k.a, k.b)) == Point(0.0, 0.0, 1.0) by {
      assert k.a != k.b && Sub(k.b, k.a) == Mul(c.side, Point(0.0, 0.0, 1.0));
      DirectionAlongAxis(lib, k.a, k.b, c.side, Point(0.0, 0.0, 1.0));
    }
    assert k.a != k.g && Direction(lib, Line(k.a, k.g)) == Point(0.0, -1.0, 0.0) by {
      assert k.a != k.g && Sub(k.g, k.a) == Mul(c.side, Point(0.0, -1.0, 0.0));
      DirectionAlongAxis(lib, k.a, k.g, c.side, Point(0.0, -1.0, 0.0));
    }
    AxisCross(4);
  }

  /** The left face (pivot e, towards d and h) has the outward normal -x. */
  lemma LeftFaceNormal(lib: MathLib, c: Cube)
    requires SoundSqrt(lib) && 0.0 < c.side
    ensures var f := CubeFaces(c)[5];
      f.pivot != f.a && f.pivot != f.b && FaceNormal(lib, f.pivot, f.a, f.b) == Point(-1.0, 0.0, 0.0)
  {
    var k := CornersOf(c);
    assert CubeFaces(c)[5] == Face(k.e, k.d, k.h);
    assert k.e != k.d && Direction(lib, Line(k.e, k.d)) == Point(0.0, 1.0, 0.0) by {
      assert k.e != k.d && Sub(k.d, k.e) == Mul(c.side, Point(0.0, 1.0, 0.0));
      DirectionAlongAxis(lib, k.e, k.d, c.side, Point(0.0, 1.0, 0.0));
    }
    assert k.e != k.h && Direction(lib, Line(k.e, k.h)) == Point(0.0, 0.0, -1.0) by {
      assert k.e != k.h && Sub(k.h, k.e) == Mul(c.side, Point(0.0, 0.0, -1.0));
      DirectionAlongAxis(lib, k.e, k.h, c.side, Point(0.0, 0.0, -1.0));
    }
    AxisCross(5);
  }

  /** The pivot of every face lies half a side out from the centre along the face's outward normal. */
  lemma FacePivotOffsets(c: Cube)
    ensures forall j | 0 <= j < 6 :: Dot(Sub(CubeFaces(c)[j].pivot, c.position), OutwardNormal(j)) == Half(c)
  {}

  /**
   * Every face of a cube of positive side has its outward unit axis vector as
   * its normal, and its pivot lies half a side out from the centre along it.
   */
  lemma CubeFaceNormal(lib: MathLib, c: Cube, j: int)
    requires SoundSqrt(lib) && 0.0 < c.side && 0 <= j < 6
    ensures var f := CubeFaces(c)[j];
      f.pivot != f.a && f.pivot != f.b && FaceNormal(lib, f.pivot, f.a, f.b) == OutwardNormal(j) &&
      Dot(Sub(f.pivot, c.position), OutwardNormal(j)) == Half(c)
  {
    FacePivotOffsets(c);
    if j == 0 {
      TopFaceNormal(lib, c);
    } else if j == 1 {
      BottomFaceNormal(lib, c);
    } else if j == 2 {
      FrontFaceNormal(lib, c);
    } else if j == 3 {
      BackFaceNormal(lib, c);
    } else if j == 4 {
      RightFaceNormal(lib, c);
    } else {
      LeftFaceNormal(lib, c);
    }
  }

  /**
   * A ray aimed along a unit direction that a face of a cube of positive side
   * accepts gets back that face's outward unit normal, and a point on the
   * face's plane: half a side out from the centre along that normal.
   */
  lemma CubeFaceHitOutward(lib: MathLib, c: Cube, j: int, origin: Point, l: Point)
    requires SoundSqrt(lib) && 0.0 < c.side && Dot(l, l) == 1.0 && 0 <= j < 6
    requires Offers(lib, Half(c), c.position, CubeFaces(c), origin, l)[j].Some?
    ensures var h := Offers(lib, Half(c), c.position, CubeFaces(c), origin, l)[j].value;
      h.normal == OutwardNormal(j) && Dot(Sub(h.p, c.position), OutwardNormal(j)) == Half(c)
  {
    var f := CubeFaces(c)[j];
    var offer := Offers(lib, Half(c), c.position, CubeFaces(c), origin, l)[j];
    assert offer == FaceHit(lib, Half(c), c.position, f.pivot, f.a, f.b, origin, l);
    var h := offer.value;
    var n := OutwardNormal(j);
    assert f.pivot != f.a && f.pivot != f.b && FaceNormal(lib, f.pivot, f.a, f.b) == n &&
      Dot(Sub(f.pivot, c.position), n) == Half(c) by {
      CubeFaceNormal(lib, c, j);
    }
    assert h.normal == n && Dot(Sub(h.p, f.pivot), n) == 0.0 by {
      FaceHitGeometry(lib, Half(c), c.position, f.pivot, f.a, f.b, origin, l);
    }
    DotSubChain(h.p, f.pivot, c.position, n);
  }

  /** The face across the cube from face `j`: top and bottom, front and back, right and left. */
  function Opposite(j: int): int {
    if j == 0 then 1
    else if j == 1 then 0
    else if j == 2 then 3
    else if j == 3 then 2
    else if j == 4 then 5
    else 4
  }

  /** Face `j`'s outward normal against face `k`'s, for one `j`. */
  lemma AxisDotFrom(j: int, k: int)
    requires 0 <= j < 6 && 0 <= k < 6
    ensures Dot(OutwardNormal(j), OutwardNormal(k)) ==
      if j == k then 1.0 else if k == Opposite(j) then -1.0 else 0.0
  {
    if k == 0 {
    } else if k == 1 {
    } else if k == 2 {
    } else if k == 3 {
    } else if k == 4 {
    } else {
    }
  }

  /**
   * Two outward normals are equal for the same face, opposite for opposite
   * faces, and orthogonal otherwise.
   */
  lemma AxisDot(j: int, k: int)
    requires 0 <= j < 6 && 0 <= k < 6
    ensures Dot(OutwardNormal(j), OutwardNormal(k)) ==
      if j == k then 1.0 else if k == Opposite(j) then -1.0 else 0.0
    ensures k == Opposite(j) ==> OutwardNormal(k) == Mul(-1.0, OutwardNormal(j))
  {
    AxisDotFrom(j, k);
    OppositeNormal(j);
  }

  /** The face across the cube faces the other way. */
  lemma OppositeNormal(j: int)
    requires 0 <= j < 6
    ensures OutwardNormal(Opposite(j)) == Mul(-1.0, OutwardNormal(j))
  {
    var o := Opposite(j);
    if j == 0 {
      assert o == 1 && OutwardNormal(o) == Point(0.0, -1.0, 0.0) && OutwardNormal(j) == Point(0.0, 1.0, 0.0);
    } else if j == 1 {
      assert o == 0 && OutwardNormal(o) == Point(0.0, 1.0, 0.0) && OutwardNormal(j) == Point(0.0, -1.0, 0.0);
    } else if j == 2 {
      assert o == 3 && OutwardNormal(o) == Point(0.0, 0.0, -1.0) && OutwardNormal(j) == Point(0.0, 0.0, 1.0);
    } else if j == 3 {
      assert o == 2 && OutwardNormal(o) == Point(0.0, 0.0, 1.0) && OutwardNormal(j) == Point(0.0, 0.0, -1.0);
    } else if j == 4 {
      assert o == 5 && OutwardNormal(o) == Point(-1.0, 0.0, 0.0) && OutwardNormal(j) == Point(1.0, 0.0, 0.0);
    } else {
      assert o == 4 && OutwardNormal(o) == Point(1.0, 0.0, 0.0) && OutwardNormal(j) == Point(-1.0, 0.0, 0.0);
    }
  }

  /** The centre of each face lies inside the cube's box. */
  lemma AxisInBox(k: int, half: real, center: Point)
    requires 0 <= k < 6 && 0.0 <= half
    ensures InBox(half, center, Add(center, Mul(half, OutwardNormal(k))))
  {
  }

  /** Scaling the left side of a dot product scales the product. */
  lemma DotMulLeft(a: real, u: Point, v: Point)
    ensures Dot(Mul(a, u), v) == a * Dot(u, v)
  {
  }

  /** A face offers its hit once its test's quantities are known. */
  lemma FaceHitOf(lib: MathLib, half: real, center: Point, pivot: Point, a: Point, b: Point,
                  origin: Point, l: Point, n: Point, t: real)
    requires pivot != a && pivot != b && FaceNormal(lib, pivot, a, b) == n
    requires Dot(l, n) != 0.0 && FaceParam(pivot, n, origin, l) == t && Precision <= t
    requires InBox(half, center, Along(origin, l, t))
    ensures FaceHit(lib, half, center, pivot, a, b, origin, l) ==
      Some(Hit(Along(origin, l, t), n, Len2p(lib, Along(origin, l, t), origin)))
  {
  }

  /** Going `t` back along `-n` from `s` out along `n` leaves `s - t` out along `n`. */
  lemma BackAlong(centre: Point, n: Point, s: real, t: real)
    ensures Along(Add(centre, Mul(s, n)), Mul(-1.0, n), t) == Add(centre, Mul(s - t, n))
  {
    assert n.x * s + n.x * -1.0 * t == n.x * (s - t);
    assert n.y * s + n.y * -1.0 * t == n.y * (s - t);
    assert n.z * s + n.z * -1.0 * t == n.z * (s - t);
  }

  /** Scaling by `-h` is scaling the reversed vector by `h`. */
  lemma MulReversed(h: real, n: Point)
    ensures Mul(-h, n) == Mul(h, Mul(-1.0, n))
  {
    assert n.x * -h == n.x * -1.0 * h;
    assert n.y * -h == n.y * -1.0 * h;
    assert n.z * -h == n.z * -1.0 * h;
  }

  /**
   * From `s` out along the unit normal `n` of a face whose pivot lies `h`
   * out along `n`, the ray back along `-n` meets the face's plane at
   * parameter `s - h`, at the point `h` out along `n`.
   */
  lemma AimedNear(centre: Point, n: Point, pivot: Point, s: real, h: real)
    requires Dot(n, n) == 1.0 && Dot(Sub(pivot, centre), n) == h
    ensures var origin := Add(centre, Mul(s, n));
      var l := Mul(-1.0, n);
      Dot(l, l) == 1.0 && Dot(l, n) == -1.0 &&
      FaceParam(pivot, n, origin, l) == s - h &&
      Along(origin, l, s - h) == Add(centre, Mul(h, n))
  {
    var origin := Add(centre, Mul(s, n));
    var l := Mul(-1.0, n);
    assert Dot(l, n) == -1.0 by {
      DotMulLeft(-1.0, n, n);
    }
    assert Dot(l, l) == 1.0 by {
      DotMulLeft(-1.0, n, l);
      assert Dot(n, l) == Dot(l, n);
    }
    assert Dot(Sub(pivot, origin), n) == h - s by {
      DotSubChain(pivot, centre, origin, n);
      assert Sub(centre, origin) == Mul(-s, n);
      DotMulLeft(-s, n, n);
    }
    assert FaceParam(pivot, n, origin, l) == (h - s) / -1.0;
    assert Along(origin, l, s - h) == Add(centre, Mul(h, n)) by {
      BackAlong(centre, n, s, s - h);
      assert s - (s - h) == h;
    }
  }


  /**
   * From `s` out along the unit vector `n`, past a face whose outward normal
   * is `-n` and whose pivot lies `h` out along `-n`, the ray back along `-n`
   * meets that face's plane at parameter `s + h`, at the point `h` out along `-n`.
   */
  lemma AimedFar(centre: Point, n: Point, pivot: Point, s: real, h: real)
    requires Dot(n, n) == 1.0 && Dot(Sub(pivot, centre), Mul(-1.0, n)) == h
    ensures var origin := Add(centre, Mul(s, n));
      var l := Mul(-1.0, n);
      Dot(l, l) == 1.0 &&
      FaceParam(pivot, l, origin, l) == s + h &&
      Along(origin, l, s + h) == Add(centre, Mul(h, l))
  {
    var origin := Add(centre, Mul(s, n));
    var l := Mul(-1.0, n);
    assert Dot(l, l) == 1.0 by {
      DotMulLeft(-1.0, n, l);
      DotMulLeft(-1.0, n, n);
      assert Dot(n, l) == Dot(l, n);
    }
    assert Dot(Sub(pivot, origin), l) == h + s by {
      DotSubChain(pivot, centre, origin, l);
      assert Sub(centre, origin) == Mul(s, l);
      DotMulLeft(s, l, l);
    }
    assert FaceParam(pivot, l, origin, l) == (h + s) / 1.0;
    assert Along(origin, l, s + h) == Add(centre, Mul(h, l)) by {
      BackAlong(centre, n, s, s + h);
      assert s - (s + h) == -h;
      MulReversed(h, n);
    }
  }


  /**
   * A face with unit normal `n` whose pivot lies `half` out along `n`, and
   * whose centre lies in the box, offers the ray from `s` out along `n` back
   * along `-n` its centre, at distance `s - half`.
   */
  lemma AimedNearOffer(lib: MathLib, half: real, centre: Point, pivot: Point, a: Point, b: Point,
                       n: Point, s: real)
    requires SoundSqrt(lib) && half + Precision <= s
    requires pivot != a && pivot != b && FaceNormal(lib, pivot, a, b) == n
    requires Dot(n, n) == 1.0 && Dot(Sub(pivot, centre), n) == half
    requires InBox(half, centre, Add(centre, Mul(half, n)))
    ensures FaceHit(lib, half, centre, pivot, a, b, Add(centre, Mul(s, n)), Mul(-1.0, n)) ==
      Some(Hit(Add(centre, Mul(half, n)), n, s - half))
  {
    var origin := Add(centre, Mul(s, n));
    var l := Mul(-1.0, n);
    AimedNear(centre, n, pivot, s, half);
    FaceHitOf(lib, half, centre, pivot, a, b, origin, l, n, s - half);
    assert Len2p(lib, Along(origin, l, s - half), origin) == s - half by {
      LenAlong(lib, origin, l, s - half);
      Len2pSymmetric(lib, origin, Along(origin, l, s - half));
    }
  }

  /**
   * A face with unit normal `-n` whose pivot lies `half` out along `-n`, and
   * whose centre lies in the box, offers the ray from `s` out along `n` back
   * along `-n` its centre, at distance `s + half`.
   */
  lemma AimedFarOffer(lib: MathLib, half: real, centre: Point, pivot: Point, a: Point, b: Point,
                      n: Point, s: real)
    requires SoundSqrt(lib) && 0.0 < half && half + Precision <= s
    requires pivot != a && pivot != b && FaceNormal(lib, pivot, a, b) == Mul(-1.0, n)
    requires Dot(n, n) == 1.0 && Dot(Sub(pivot, centre), Mul(-1.0, n)) == half
    requires InBox(half, centre, Add(centre, Mul(half, Mul(-1.0, n))))
    ensures FaceHit(lib, half, centre, pivot, a, b, Add(centre, Mul(s, n)), Mul(-1.0, n)) ==
      Some(Hit(Add(centre, Mul(half, Mul(-1.0, n))), Mul(-1.0, n), s + half))
  {
    var origin := Add(centre, Mul(s, n));
    var l := Mul(-1.0, n);
    AimedFar(centre, n, pivot, s, half);
    FaceHitOf(lib, half, centre, pivot, a, b, origin, l, l, s + half);
    assert Len2p(lib, Along(origin, l, s + half), origin) == s + half by {
      LenAlong(lib, origin, l, s + half);
      Len2pSymmetric(lib, origin, Along(origin, l, s + half));
    }
  }

  /** A face whose normal is orthogonal to the ray offers nothing. */
  lemma ParallelOffer(lib: MathLib, half: real, centre: Point, pivot: Point, a: Point, b: Point,
                      origin: Point, l: Point, n: Point)
    requires pivot != a && pivot != b && FaceNormal(lib, pivot, a, b) == n && Dot(l, n) == 0.0
    ensures FaceHit(lib, half, centre, pivot, a, b, origin, l) == None
  {
  }

  /**
   * The ray that starts `s` out from the centre along face `j`'s outward
   * normal and heads straight back in is offered face `j`'s centre, with its
   * outward normal, at distance `s - half`.
   */
  lemma AimedFaceOffer(lib: MathLib, c: Cube, j: int, s: real)
    requires SoundSqrt(lib) && 0.0 < c.side && 0 <= j < 6 && Half(c) + Precision <= s
    ensures var n := OutwardNormal(j);
      var offer := Offers(lib, Half(c), c.position, CubeFaces(c), Add(c.position, Mul(s, n)), Mul(-1.0, n))[j];
      offer.Some? && offer.value.p == Add(c.position, Mul(Half(c), n)) &&
      offer.value.normal == n && offer.value.len == s - Half(c)
  {
    var n := OutwardNormal(j);
    var h := Half(c);
    var f := CubeFaces(c)[j];
    var origin := Add(c.position, Mul(s, n));
    var l := Mul(-1.0, n);
    var offer := Offers(lib, h, c.position, CubeFaces(c), origin, l)[j];
    assert offer == FaceHit(lib, h, c.position, f.pivot, f.a, f.b, origin, l);
    assert offer == Some(Hit(Add(c.position, Mul(h, n)), n, s - h)) by {
      CubeFaceNormal(lib, c, j);
      AxisDot(j, j);
      AxisInBox(j, h, c.position);
      AimedNearOffer(lib, h, c.position, f.pivot, f.a, f.b, n, s);
    }
  }

  /**
   * The same ray is offered the centre of the face opposite face `j`, with
   * that face's outward normal, at distance `s + half`.
   */
  lemma AimedBackOffer(lib: MathLib, c: Cube, j: int, s: real)
    requires SoundSqrt(lib) && 0.0 < c.side && 0 <= j < 6 && Half(c) + Precision <= s
    ensures var n := OutwardNormal(j);
      var k := Opposite(j);
      var offer := Offers(lib, Half(c), c.position, CubeFaces(c), Add(c.position, Mul(s, n)), Mul(-1.0, n))[k];
      offer.Some? && offer.value.p == Add(c.position, Mul(Half(c), OutwardNormal(k))) &&
      offer.value.normal == OutwardNormal(k) && offer.value.len == s + Half(c)
  {
    var n := OutwardNormal(j);
    var k := Opposite(j);
    var nk := OutwardNormal(k);
    var h := Half(c);
    var f := CubeFaces(c)[k];
    var origin := Add(c.position, Mul(s, n));
    var l := Mul(-1.0, n);
    var offer := Offers(lib, h, c.position, CubeFaces(c), origin, l)[k];
    assert offer == FaceHit(lib, h, c.position, f.pivot, f.a, f.b, origin, l);
    assert offer == Some(Hit(Add(c.position, Mul(h, nk)), nk, s + h)) by {
      CubeFaceNormal(lib, c, k);
      AxisDot(j, j);
      AxisDot(j, k);
      AxisInBox(k, h, c.position);
      AimedFarOffer(lib, h, c.position, f.pivot, f.a, f.b, n, s);
    }
  }

  /** The same ray runs parallel to the four other faces, which offer nothing. */
  lemma AimedSideOffer(lib: MathLib, c: Cube, j: int, k: int, s: real)
    requires SoundSqrt(lib) && 0.0 < c.side && 0 <= j < 6 && 0 <= k < 6 && k != j && k != Opposite(j)
    ensures var n := OutwardNormal(j);
      Offers(lib, Half(c), c.position, CubeFaces(c), Add(c.position, Mul(s, n)), Mul(-1.0, n))[k] == None
  {
    var n := OutwardNormal(j);
    var nk := OutwardNormal(k);
    var f := CubeFaces(c)[k];
    CubeFaceNormal(lib, c, k);
    AxisDot(j, k);
    DotMulLeft(-1.0, n, nk);
    ParallelOffer(lib, Half(c), c.position, f.pivot, f.a, f.b, Add(c.position, Mul(s, n)), Mul(-1.0, n), nk);
  }

  /**
   * A ray that starts `s` out from the centre of a cube along face `j`'s
   * outward normal, clear of the face, and heads straight back in is
   * reported as hitting face `j`: at the face's centre, with the face's
   * outward normal, at distance `s - half`.
   */
  lemma CubeAimedHit(lib: MathLib, c: Cube, j: int, s: real)
    requires SoundSqrt(lib) && 0.0 < c.side && 0 <= j < 6 && Half(c) + Precision <= s
    ensures var n := OutwardNormal(j);
      CubeHit(lib, Mul(-1.0, n), Add(c.position, Mul(s, n)), c) ==
        Hit(Add(c.position, Mul(Half(c), n)), n, s - Half(c))
  {
    var n := OutwardNormal(j);
    var h := Half(c);
    var origin := Add(c.position, Mul(s, n));
    var l := Mul(-1.0, n);
    var offers := Offers(lib, h, c.position, CubeFaces(c), origin, l);
    var r := CubeHit(lib, l, origin, c);
    AimedFaceOffer(lib, c, j, s);
    AimedBackOffer(lib, c, j, s);
    forall k | 0 <= k < 6 && k != j && k != Opposite(j)
      ensures offers[k] == None
    {
      AimedSideOffer(lib, c, j, k, s);
    }
    CubeHitNearestFace(lib, l, origin, c);
    assert r.len <= s - h;
    var k :| 0 <= k < 6 && offers[k] == Some(r);
    assert k == j;
  }
}
