/**
 * Nearest-hit resolution (c/ray-cast.h:316-345, 406-448): a running-minimum
 * scan over the spheres, one over the cubes, and the merge of the two.
 */
module Resolver {
  import opened Vectors
  import opened Scene
  import opened Spheres
  import opened Cubes

  /** A scan keeps a test only when it lies strictly between 0 and the current bound. */
  predicate Accepted(t: Hit, bound: real) {
    0.0 < t.len < bound
  }

  /**
   * The index a running-minimum scan settles on: the first test with the
   * smallest accepted length, or -1 when no test is accepted.
   */
  function Nearest(tests: seq<Hit>, strength: real): (k: int)
    ensures -1 <= k < |tests|
    ensures k == -1 <==> forall j | 0 <= j < |tests| :: !Accepted(tests[j], strength)
    ensures k != -1 ==> Accepted(tests[k], strength)
    ensures k != -1 ==> forall j | 0 <= j < |tests| && Accepted(tests[j], strength) :: tests[k].len <= tests[j].len
    ensures k != -1 ==> forall j | 0 <= j < k && Accepted(tests[j], strength) :: tests[k].len < tests[j].len
  {
    if |tests| == 0 then -1
    else
      var init := tests[..|tests| - 1];
      var k := Nearest(init, strength);
      var distance := if k == -1 then strength else init[k].len;
      var t := tests[|tests| - 1];
      if 0.0 < t.len && t.len < distance then |tests| - 1 else k
  }

  /** The answer of every sphere to a ray of non-zero length. */
  function SphereTests(lib: MathLib, ray: Line, spheres: seq<Sphere>): seq<Hit>
    requires ray.origin != ray.destiny
  {
    var l := Direction(lib, ray);
    Map(spheres, (s: Sphere) => IntersectSphere(lib, l, ray.origin, s))
  }

  /** The answer of every cube to a ray of non-zero length. */
  function CubeTests(lib: MathLib, ray: Line, cubes: seq<Cube>): seq<Hit>
    requires ray.origin != ray.destiny
  {
    var l := Direction(lib, ray);
    Map(cubes, (c: Cube) => CubeHit(lib, l, ray.origin, c))
  }

  /**
   * The scan's result for a list of tests: no hit when no test is accepted;
   * otherwise the first accepted test of smallest length, with its index.
   */
  function Resolved(tests: seq<Hit>, strength: real, kind: Kind): (r: Intersection)
    ensures r.kind == kind && -1 <= r.i < |tests|
    ensures r.i == -1 <==> forall j | 0 <= j < |tests| :: !Accepted(tests[j], strength)
    ensures r.i == -1 ==> r == Missed(kind)
    ensures r.i != -1 ==>
      r.p == tests[r.i].p && r.normal == tests[r.i].normal && r.len == tests[r.i].len &&
      0.0 < r.len < strength &&
      (forall j | 0 <= j < |tests| && Accepted(tests[j], strength) :: r.len <= tests[j].len) &&
      (forall j | 0 <= j < r.i && Accepted(tests[j], strength) :: r.len < tests[j].len)
  {
    var k := Nearest(tests, strength);
    if k == -1 then Missed(kind) else Intersection(tests[k].p, tests[k].normal, tests[k].len, k, kind)
  }

  /** The length a scan must beat: the strength until some test is accepted, then the best length. */
  function Bound(best: Intersection, strength: real): real {
    if best.i == -1 then strength else best.len
  }

  /**
   * The running-minimum scan over the spheres, after the whole list: an
   * accepted sphere replaces the best so far only when strictly nearer.
   */
  function SphereScan(lib: MathLib, ray: Line, strength: real, spheres: seq<Sphere>): (r: Intersection)
    requires ray.origin != ray.destiny
    ensures r.kind == SphereKind && -1 <= r.i < |spheres|
    ensures r.i == -1 ==> r == Missed(SphereKind)
    ensures r.i != -1 ==> 0.0 < r.len < strength && r.normal == Zero
    decreases |spheres|, 1
  {
    if |spheres| == 0 then Missed(SphereKind) else SphereStep(lib, ray, strength, spheres)
  }

  /** One turn of the sphere scan: the last sphere against the scan of the others. */
  function SphereStep(lib: MathLib, ray: Line, strength: real, spheres: seq<Sphere>): (r: Intersection)
    requires ray.origin != ray.destiny && |spheres| > 0
    ensures r.kind == SphereKind && -1 <= r.i < |spheres|
    ensures r.i == -1 ==> r == Missed(SphereKind)
    ensures r.i != -1 ==> 0.0 < r.len < strength && r.normal == Zero
    decreases |spheres|, 0
  {
    var n := |spheres| - 1;
    var best := SphereScan(lib, ray, strength, spheres[..n]);
    var test := IntersectSphere(lib, Direction(lib, ray), ray.origin, spheres[n]);
    if 0.0 < test.len && test.len < Bound(best, strength) then Intersection(test.p, Zero, test.len, n, SphereKind)
    else best
  }

  /** The running-minimum scan over the cubes, as for the spheres but keeping the face normal. */
  function CubeScan(lib: MathLib, ray: Line, strength: real, cubes: seq<Cube>): (r: Intersection)
    requires ray.origin != ray.destiny
    ensures r.kind == CubeKind && -1 <= r.i < |cubes|
    ensures r.i == -1 ==> r == Missed(CubeKind)
    ensures r.i != -1 ==> 0.0 < r.len < strength
    decreases |cubes|, 1
  {
    if |cubes| == 0 then Missed(CubeKind) else CubeStep(lib, ray, strength, cubes)
  }

  /** One turn of the cube scan. */
  function CubeStep(lib: MathLib, ray: Line, strength: real, cubes: seq<Cube>): (r: Intersection)
    requires ray.origin != ray.destiny && |cubes| > 0
    ensures r.kind == CubeKind && -1 <= r.i < |cubes|
    ensures r.i == -1 ==> r == Missed(CubeKind)
    ensures r.i != -1 ==> 0.0 < r.len < strength
    decreases |cubes|, 0
  {
    var n := |cubes| - 1;
    var best := CubeScan(lib, ray, strength, cubes[..n]);
    var test := CubeHit(lib, Direction(lib, ray), ray.origin, cubes[n]);
    if 0.0 < test.len && test.len < Bound(best, strength) then Intersection(test.p, test.normal, test.len, n, CubeKind)
    else best
  }

  /** The sphere scan settles on the first nearest accepted sphere. */
  lemma {:induction false} SphereScanIsResolved(lib: MathLib, ray: Line, strength: real, spheres: seq<Sphere>)
    requires ray.origin != ray.destiny
    ensures SphereScan(lib, ray, strength, spheres) == Resolved(SphereTests(lib, ray, spheres), strength, SphereKind)
  {
    if |spheres| > 0 {
      var n := |spheres| - 1;
      SphereScanIsResolved(lib, ray, strength, spheres[..n]);
      var tests := SphereTests(lib, ray, spheres);
      var init := SphereTests(lib, ray, spheres[..n]);
      assert forall j | 0 <= j < n :: tests[j] == init[j];
      assert tests[..n] == init;
    }
  }

  /** The cube scan settles on the first nearest accepted cube. */
  lemma {:induction false} CubeScanIsResolved(lib: MathLib, ray: Line, strength: real, cubes: seq<Cube>)
    requires ray.origin != ray.destiny
    ensures CubeScan(lib, ray, strength, cubes) == Resolved(CubeTests(lib, ray, cubes), strength, CubeKind)
  {
    if |cubes| > 0 {
      var n := |cubes| - 1;
      CubeScanIsResolved(lib, ray, strength, cubes[..n]);
      var tests := CubeTests(lib, ray, cubes);
      var init := CubeTests(lib, ray, cubes[..n]);
      assert forall j | 0 <= j < n :: tests[j] == init[j];
      assert tests[..n] == init;
    }
  }

  /**
   * `intersectAllSpheres`, as a function. A ray of zero length has no
   * direction: C then computes NaN lengths, which the scan rejects.
   */
  function SpheresHit(lib: MathLib, ray: Line, strength: real, spheres: seq<Sphere>): (r: Intersection)
    ensures r.kind == SphereKind && -1 <= r.i < |spheres|
    ensures r.i == -1 <==> r.len == -1.0
    ensures r.i == -1 ==> r == Missed(SphereKind)
    ensures r.i != -1 ==> 0.0 < r.len < strength && ray.origin != ray.destiny
  {
    if |spheres| == 0 || ray.origin == ray.destiny then Missed(SphereKind)
    else SphereScan(lib, ray, strength, spheres)
  }

  /** `intersectAllCubes`, as a function; a ray of zero length misses as for spheres. */
  function CubesHit(lib: MathLib, ray: Line, strength: real, cubes: seq<Cube>): (r: Intersection)
    ensures r.kind == CubeKind && -1 <= r.i < |cubes|
    ensures r.i == -1 <==> r.len == -1.0
    ensures r.i == -1 ==> r == Missed(CubeKind)
    ensures r.i != -1 ==> 0.0 < r.len < strength && ray.origin != ray.destiny
  {
    if |cubes| == 0 || ray.origin == ray.destiny then Missed(CubeKind)
    else CubeScan(lib, ray, strength, cubes)
  }

  /**
   * `intersectAllSpheres` settles on the first nearest accepted sphere: no
   * hit when no sphere's test has `0 < len < strength`, including an empty
   * list.
   */
  lemma SpheresHitIsResolved(lib: MathLib, ray: Line, strength: real, spheres: seq<Sphere>)
    requires ray.origin != ray.destiny
    ensures SpheresHit(lib, ray, strength, spheres) == Resolved(SphereTests(lib, ray, spheres), strength, SphereKind)
  {
    if |spheres| > 0 {
      SphereScanIsResolved(lib, ray, strength, spheres);
    }
  }

  /** `intersectAllCubes` settles on the first nearest accepted cube, as for the spheres. */
  lemma CubesHitIsResolved(lib: MathLib, ray: Line, strength: real, cubes: seq<Cube>)
    requires ray.origin != ray.destiny
    ensures CubesHit(lib, ray, strength, cubes) == Resolved(CubeTests(lib, ray, cubes), strength, CubeKind)
  {
    if |cubes| > 0 {
      CubeScanIsResolved(lib, ray, strength, cubes);
    }
  }

  /** `intersectAllSpheres`: the running-minimum scan over the spheres. */
  method IntersectAllSpheres(lib: MathLib, ray: Line, strength: real, objects: seq<Sphere>)
    returns (intersected: Intersection)
    ensures intersected == SpheresHit(lib, ray, strength, objects)
  {
    intersected := Missed(SphereKind);
    if |objects| > 0 {
      if ray.origin == ray.destiny {
        return;
      }
      var l := Direction(lib, ray);
      var distance := strength;
      var final := -1;
      for k := 0 to |objects|
        invariant intersected.(i := final) == SphereScan(lib, ray, strength, objects[..k])
        invariant intersected.i == -1
        invariant distance == Bound(SphereScan(lib, ray, strength, objects[..k]), strength)
      {
        var test := IntersectSphere(lib, l, ray.origin, objects[k]);
        assert objects[..k + 1][..k] == objects[..k];
        if test.len > 0.0 {
          if test.len < distance {
            distance := test.len;
            intersected := intersected.(len := test.len, p := test.p);
            final := k;
          }
        }
      }
      assert objects[..|objects|] == objects;
      intersected := intersected.(i := final);
    }
  }

  /** `intersectAllCubes`: the running-minimum scan over the cubes. */
  method IntersectAllCubes(lib: MathLib, ray: Line, strength: real, objects: seq<Cube>)
    returns (intersected: Intersection)
    ensures intersected == CubesHit(lib, ray, strength, objects)
  {
    intersected := Missed(CubeKind);
    if |objects| > 0 {
      if ray.origin == ray.destiny {
        return;
      }
      var l := Direction(lib, ray);
      var distance := strength;
      for k := 0 to |objects|
        invariant intersected == CubeScan(lib, ray, strength, objects[..k])
        invariant distance == Bound(intersected, strength)
      {
        var test := IntersectCube(lib, l, ray.origin, objects[k]);
        assert objects[..k + 1][..k] == objects[..k];
        if test.len > 0.0 {
          if test.len < distance {
            distance := test.len;
            intersected := intersected.(len := test.len, normal := test.normal, p := test.p, i := k);
          }
        }
      }
      assert objects[..|objects|] == objects;
    }
  }

  /**
   * `intersect`'s choice between the cube and the sphere result: a missing
   * side yields the other; otherwise the nearer, and the sphere on a tie.
   */
  function Merge(cube: Intersection, sphere: Intersection): (r: Intersection)
    ensures r == cube || r == sphere
    ensures r.len == -1.0 <==> cube.len == -1.0 && sphere.len == -1.0
    ensures cube.len == -1.0 ==> r == sphere
    ensures sphere.len == -1.0 && cube.len != -1.0 ==> r == cube
    ensures cube.len != -1.0 && sphere.len != -1.0 ==> r.len <= cube.len && r.len <= sphere.len
    ensures cube.len != -1.0 && sphere.len != -1.0 && cube.len == sphere.len ==> r == sphere
  {
    if cube.len == -1.0 then sphere
    else if sphere.len == -1.0 then cube
    else if cube.len < sphere.len then cube
    else sphere
  }

  /** `intersect`, as a function: the merge of the cube scan and the sphere scan. */
  function SceneHit(lib: MathLib, ray: Line, strength: real, spheres: seq<Sphere>, cubes: seq<Cube>): (r: Intersection)
    ensures -1 <= r.i
    ensures r.i == -1 <==> r.len == -1.0
    ensures r.i != -1 ==> 0.0 < r.len < strength && HitIn(r, spheres, cubes)
  {
    Merge(CubesHit(lib, ray, strength, cubes), SpheresHit(lib, ray, strength, spheres))
  }

  /** `intersect`: scans the cubes, then the spheres, and merges. */
  method Intersect(lib: MathLib, ray: Line, strength: real, spheres: seq<Sphere>, cubes: seq<Cube>)
    returns (r: Intersection)
    ensures r == SceneHit(lib, ray, strength, spheres, cubes)
  {
    var cube := IntersectAllCubes(lib, ray, strength, cubes);
    var sphere := IntersectAllSpheres(lib, ray, strength, spheres);
    if cube.len == -1.0 {
      return sphere;
    }
    if sphere.len == -1.0 {
      return cube;
    }
    if cube.len < sphere.len {
      return cube;
    }
    return sphere;
  }

  /**
   * Over the whole scene, the ray misses exactly when no object of either
   * kind is accepted; otherwise the result is an accepted test no farther
   * than any accepted test of either kind, and a cube is reported only when
   * it is strictly nearer than every accepted sphere.
   */
  lemma SceneHitIsNearest(lib: MathLib, ray: Line, strength: real, spheres: seq<Sphere>, cubes: seq<Cube>)
    requires ray.origin != ray.destiny
    ensures var st := SphereTests(lib, ray, spheres);
      var ct := CubeTests(lib, ray, cubes);
      var r := SceneHit(lib, ray, strength, spheres, cubes);
      (r.i == -1 <==>
        (forall j | 0 <= j < |st| :: !Accepted(st[j], strength)) &&
        (forall j | 0 <= j < |ct| :: !Accepted(ct[j], strength))) &&
      (r.i != -1 ==>
        r.len == (if r.kind == SphereKind then st[r.i].len else ct[r.i].len) &&
        (forall j | 0 <= j < |st| && Accepted(st[j], strength) :: r.len <= st[j].len) &&
        (forall j | 0 <= j < |ct| && Accepted(ct[j], strength) :: r.len <= ct[j].len)) &&
      (r.i != -1 && r.kind == CubeKind ==>
        forall j | 0 <= j < |st| && Accepted(st[j], strength) :: r.len < st[j].len)
  {
    var c := CubesHit(lib, ray, strength, cubes);
    var s := SpheresHit(lib, ray, strength, spheres);
    var st := SphereTests(lib, ray, spheres);
    var ct := CubeTests(lib, ray, cubes);
    if |spheres| > 0 {
      SphereScanIsResolved(lib, ray, strength, spheres);
    }
    if |cubes| > 0 {
      CubeScanIsResolved(lib, ray, strength, cubes);
    }
    var r := SceneHit(lib, ray, strength, spheres, cubes);
    assert r == Merge(c, s);
    if r.i != -1 && r.kind == CubeKind && s.i != -1 {
      assert r == c;
      assert c.len < s.len;
    }
  }
}
