/**
 * Shading of a hit (c/ray-cast.h:449-525): the ambient term, the mirror
 * term from a reflected ray, then one specular and one diffuse term per
 * light that sees the point.
 */
module Shader {
  import opened Arith
  import opened Vectors
  import opened Scene
  import opened Resolver

  /** The normal at the hit: the cube face's normal, or (p - centre) / radius on a sphere. */
  function SurfaceNormal(result: Intersection, spheres: seq<Sphere>): Point
    requires result.kind == SphereKind ==> 0 <= result.i < |spheres|
  {
    match result.kind
    case CubeKind => result.normal
    case SphereKind => Dv(Sub(result.p, spheres[result.i].position), spheres[result.i].radius)
  }

  function MaterialOf(result: Intersection, spheres: seq<Sphere>, cubes: seq<Cube>): Material
    requires HitIn(result, spheres, cubes)
  {
    match result.kind
    case CubeKind => cubes[result.i].material
    case SphereKind => spheres[result.i].material
  }

  /**
   * The diffuse weight of a light: the material's diffuse coefficient, scaled
   * by the non-mirror share, the cosine `nl` and the light's intensity at the
   * point, and clamped at zero.
   */
  function DiffuseFactor(m: Material, nl: real, iLight: real): (r: real)
    ensures 0.0 <= r
    ensures 0.0 <= m.diffuse * (1.0 - m.reflection) * nl * iLight ==> r == m.diffuse * (1.0 - m.reflection) * nl * iLight
    ensures m.diffuse * (1.0 - m.reflection) * nl * iLight < 0.0 ==> r == 0.0
  {
    var str := m.diffuse * (1.0 - m.reflection);
    var str := str * nl;
    var str := str * iLight;
    if str < 0.0 then 0.0 else str
  }

  /**
   * The shadow test: the ray from the light towards `p`, as far as the
   * light's intensity reaches, must first hit `p` itself. When that ray hits
   * nothing, C compares with an unset point; here the light is then hidden.
   */
  predicate Visible(lib: MathLib, p: Point, src: Light, spheres: seq<Sphere>, cubes: seq<Cube>) {
    var isShadow := SceneHit(lib, Line(src.position, p), src.intensity, spheres, cubes);
    isShadow.i >= 0 && Eq(isShadow.p, p)
  }

  /** The unit vector from `p` towards the light. */
  function ToLight(lib: MathLib, p: Point, src: Light): Point {
    var light := Sub(src.position, p);
    Dv(light, Len(lib, light))
  }

  /** The light's intensity at `p`: it falls with the squared distance. */
  function Irradiance(lib: MathLib, p: Point, src: Light): real {
    var lightL := Len(lib, Sub(src.position, p));
    Div(src.intensity, lightL * lightL)
  }

  /**
   * The cosine between the light direction mirrored about the normal and the
   * direction of the ray's origin.
   */
  function Phi(lib: MathLib, ray: Line, normal: Point, light: Point): real {
    var reflectedLight := Sub(Mul(2.0 * Dot(normal, light), normal), light);
    Div(Dot(reflectedLight, ray.origin), Len(lib, reflectedLight) * Len(lib, ray.origin))
  }

  /**
   * `tmp` after the specular step: the specular term when the mirrored light
   * leans towards the viewer (`phi > 0`), and black otherwise.
   */
  function Specular(lib: MathLib, m: Material, phi: real, iLight: real, src: Light): Color {
    if phi > 0.0 then AddC(Black, MulDC(m.specular * lib.pow(phi, m.shiny) * iLight, src.color)) else Black
  }

  /** The diffuse term in the material's colour. */
  function Diffuse(m: Material, nl: real, iLight: real, src: Light): Color {
    Mul2C(m.color, MulDC(DiffuseFactor(m, nl, iLight), src.color))
  }

  /**
   * What a visible light adds at `p`: the specular term, and the diffuse term
   * unless the surface is a perfect mirror.
   */
  function LitBy(lib: MathLib, ray: Line, p: Point, normal: Point, m: Material, src: Light): Color {
    var iLight := Irradiance(lib, p, src);
    var light := ToLight(lib, p, src);
    var nl := Dot(normal, light);
    var tmp := Specular(lib, m, Phi(lib, ray, normal, light), iLight, src);
    if m.reflection < 1.0 then AddC(tmp, Diffuse(m, nl, iLight, src)) else tmp
  }

  /** One turn of the light loop: a hidden light adds black. */
  function LightContribution(lib: MathLib, ray: Line, p: Point, normal: Point, m: Material, src: Light,
                             spheres: seq<Sphere>, cubes: seq<Cube>): Color
  {
    if Visible(lib, p, src, spheres, cubes) then LitBy(lib, ray, p, normal, m, src) else Black
  }

  /** The contributions of the lights, in order. */
  function Contributions(lib: MathLib, ray: Line, p: Point, normal: Point, m: Material, sources: seq<Light>,
                         spheres: seq<Sphere>, cubes: seq<Cube>): (cs: seq<Color>)
    ensures |cs| == |sources|
  {
    seq(|sources|, j requires 0 <= j < |sources| => LightContribution(lib, ray, p, normal, m, sources[j], spheres, cubes))
  }

  /**
   * The mirror ray: from the hit point along the viewer direction mirrored
   * about the normal, `strength` long. The viewer direction is the ray's
   * origin scaled to unit length.
   */
  function Reflected(lib: MathLib, ray: Line, p: Point, normal: Point, strength: real): Line {
    var camera := Dv(ray.origin, Len(lib, ray.origin));
    Line(p, Add(p, Mul(strength, Sub(Mul(2.0 * Dot(normal, camera), normal), camera))))
  }

  /** The strength left for the mirror ray: what its hit did not use up, scaled by the reflection. */
  function MirrorStrength(strength: real, reflection: Intersection, m: Material): real {
    (strength - reflection.len) * m.reflection
  }

  /**
   * The colour before the lights. A mirroring material blends its ambient
   * colour with the shading of whatever the mirror ray hits, with what is
   * left of `strength` scaled by the reflection coefficient; a mirror ray
   * that hits nothing, or hits the point itself, leaves only the ambient
   * share.
   */
  function MirrorBase(lib: MathLib, ray: Line, result: Intersection, sources: seq<Light>,
                      spheres: seq<Sphere>, cubes: seq<Cube>, strength: real, depth: nat): Color
    requires HitIn(result, spheres, cubes)
    decreases depth, 0
  {
    var m := MaterialOf(result, spheres, cubes);
    var ambient := MulDC(m.ambient, m.color);
    if m.reflection > 0.0 then
      var reflectedRay := Reflected(lib, ray, result.p, SurfaceNormal(result, spheres), strength);
      var reflection := SceneHit(lib, reflectedRay, strength, spheres, cubes);
      if reflection.i >= 0 && !Eq(reflection.p, result.p) && depth > 0 then
        var str := MirrorStrength(strength, reflection, m);
        AddC(MulDC(1.0 - m.reflection, ambient),
             MulDC(m.reflection, Shading(lib, reflectedRay, reflection, sources, spheres, cubes, str, depth - 1)))
      else MulDC(1.0 - m.reflection, ambient)
    else ambient
  }

  /**
   * `shade`, as a function: the mirror base with the contribution of every
   * light added in order. The source recurses without bound; `depth` bounds
   * the recursion here, and a mirror reached with no depth left is treated
   * as one whose ray hits nothing.
   */
  function Shading(lib: MathLib, ray: Line, result: Intersection, sources: seq<Light>,
                   spheres: seq<Sphere>, cubes: seq<Cube>, strength: real, depth: nat): Color
    requires HitIn(result, spheres, cubes)
    decreases depth, 1
  {
    Accumulate(MirrorBase(lib, ray, result, sources, spheres, cubes, strength, depth),
               Contributions(lib, ray, result.p, SurfaceNormal(result, spheres), MaterialOf(result, spheres, cubes),
                             sources, spheres, cubes))
  }

  /** The body of the light loop for a light that sees `p`: its specular and diffuse terms. */
  method LightTerm(lib: MathLib, ray: Line, p: Point, normal: Point, material: Material, src: Light)
    returns (tmp: Color)
    ensures tmp == LitBy(lib, ray, p, normal, material, src)
  {
    var iLight := Irradiance(lib, p, src);
    var light := ToLight(lib, p, src);
    var nl := Dot(normal, light);
    var phi := Phi(lib, ray, normal, light);
    tmp := Specular(lib, material, phi, iLight, src);
    if material.reflection < 1.0 {
      tmp := AddC(tmp, Diffuse(material, nl, iLight, src));
    }
  }

  /** A mirror whose ray hits something else, with depth left, blends its ambient share with that shading. */
  lemma MirrorBaseHit(lib: MathLib, ray: Line, result: Intersection, sources: seq<Light>,
                      spheres: seq<Sphere>, cubes: seq<Cube>, strength: real, depth: nat)
    requires HitIn(result, spheres, cubes)
    requires var m := MaterialOf(result, spheres, cubes);
      m.reflection > 0.0 &&
      var reflection := SceneHit(lib, Reflected(lib, ray, result.p, SurfaceNormal(result, spheres), strength),
                                 strength, spheres, cubes);
      reflection.i >= 0 && !Eq(reflection.p, result.p) && depth > 0
    ensures var m := MaterialOf(result, spheres, cubes);
      var reflectedRay := Reflected(lib, ray, result.p, SurfaceNormal(result, spheres), strength);
      var reflection := SceneHit(lib, reflectedRay, strength, spheres, cubes);
      var mirrored := Shading(lib, reflectedRay, reflection, sources, spheres, cubes,
                              MirrorStrength(strength, reflection, m), depth - 1);
      MirrorBase(lib, ray, result, sources, spheres, cubes, strength, depth) ==
        AddC(MulDC(1.0 - m.reflection, MulDC(m.ambient, m.color)), MulDC(m.reflection, mirrored))
  {}

  /**
   * A mirror whose ray hits nothing, comes back to the point itself, or has
   * no depth left keeps only the ambient share of its own colour.
   */
  lemma MirrorBaseMiss(lib: MathLib, ray: Line, result: Intersection, sources: seq<Light>,
                       spheres: seq<Sphere>, cubes: seq<Cube>, strength: real, depth: nat)
    requires HitIn(result, spheres, cubes)
    requires var m := MaterialOf(result, spheres, cubes);
      m.reflection > 0.0 &&
      var reflection := SceneHit(lib, Reflected(lib, ray, result.p, SurfaceNormal(result, spheres), strength),
                                 strength, spheres, cubes);
      reflection.i == -1 || Eq(reflection.p, result.p) || depth == 0
    ensures var m := MaterialOf(result, spheres, cubes);
      MirrorBase(lib, ray, result, sources, spheres, cubes, strength, depth) ==
        MulDC(1.0 - m.reflection, MulDC(m.ambient, m.color))
  {}

  /** The first half of `shade`: the ambient colour and the mirror term, by recursion. */
  method MirrorTerm(lib: MathLib, ray: Line, result: Intersection, sources: seq<Light>,
                    spheres: seq<Sphere>, cubes: seq<Cube>, strength: real, depth: nat) returns (ret: Color)
    requires HitIn(result, spheres, cubes)
    ensures ret == MirrorBase(lib, ray, result, sources, spheres, cubes, strength, depth)
    decreases depth, 0
  {
    var normal := SurfaceNormal(result, spheres);
    var material := MaterialOf(result, spheres, cubes);
    ret := MulDC(material.ambient, material.color);
    if material.reflection > 0.0 {
      var reflectedRay := Reflected(lib, ray, result.p, normal, strength);
      var reflection := Intersect(lib, reflectedRay, strength, spheres, cubes);
      var str := MirrorStrength(strength, reflection, material);
      if reflection.i >= 0 && !Eq(reflection.p, result.p) && depth > 0 {
        var mirrored := Shade(lib, reflectedRay, reflection, sources, spheres, cubes, str, depth - 1);
        MirrorBaseHit(lib, ray, result, sources, spheres, cubes, strength, depth);
        ret := AddC(MulDC(1.0 - material.reflection, ret), MulDC(material.reflection, mirrored));
      } else {
        MirrorBaseMiss(lib, ray, result, sources, spheres, cubes, strength, depth);
        ret := MulDC(1.0 - material.reflection, ret);
      }
    }
  }

  /** `shade`: the mirror term, then the loop over the lights. */
  method Shade(lib: MathLib, ray: Line, result: Intersection, sources: seq<Light>,
               spheres: seq<Sphere>, cubes: seq<Cube>, strength: real, depth: nat) returns (ret: Color)
    requires HitIn(result, spheres, cubes)
    ensures ret == Shading(lib, ray, result, sources, spheres, cubes, strength, depth)
    decreases depth, 1
  {
    var normal := SurfaceNormal(result, spheres);
    var material := MaterialOf(result, spheres, cubes);
    ret := MirrorTerm(lib, ray, result, sources, spheres, cubes, strength, depth);
    ghost var base := ret;
    ghost var cs := Contributions(lib, ray, result.p, normal, material, sources, spheres, cubes);
    for i := 0 to |sources|
      invariant ret == Accumulate(base, cs[..i])
    {
      var tmp := Black;
      var shadow := Line(sources[i].position, result.p);
      var isShadow := Intersect(lib, shadow, sources[i].intensity, spheres, cubes);
      if isShadow.i >= 0 && Eq(isShadow.p, result.p) {
        tmp := LightTerm(lib, ray, result.p, normal, material, sources[i]);
      }
      assert cs[i] == LightContribution(lib, ray, result.p, normal, material, sources[i], spheres, cubes);
      AccumulateStep(base, cs, i);
      ret := AddC(ret, tmp);
    }
    assert cs[..|sources|] == cs;
  }

  /** A light whose shadow ray hits nothing, or stops before the point, adds black. */
  lemma ShadowedLightIsBlack(lib: MathLib, ray: Line, p: Point, normal: Point, m: Material, src: Light,
                             spheres: seq<Sphere>, cubes: seq<Cube>)
    requires var isShadow := SceneHit(lib, Line(src.position, p), src.intensity, spheres, cubes);
      isShadow.i == -1 || !Eq(isShadow.p, p)
    ensures LightContribution(lib, ray, p, normal, m, src, spheres, cubes) == Black
  {}

  /** A perfect mirror takes no diffuse term from a light. */
  lemma PerfectMirrorHasNoDiffuse(lib: MathLib, ray: Line, p: Point, normal: Point, m: Material, src: Light)
    requires 1.0 <= m.reflection
    ensures LitBy(lib, ray, p, normal, m, src) ==
            Specular(lib, m, Phi(lib, ray, normal, ToLight(lib, p, src)), Irradiance(lib, p, src), src)
  {}

  /** The diffuse term never darkens: each of its components has the sign of the product of the two colours. */
  lemma DiffuseNeverNegative(m: Material, nl: real, iLight: real, src: Light)
    requires 0.0 <= m.color.red && 0.0 <= m.color.green && 0.0 <= m.color.blue
    requires 0.0 <= src.color.red && 0.0 <= src.color.green && 0.0 <= src.color.blue
    ensures var d := Diffuse(m, nl, iLight, src);
      0.0 <= d.red && 0.0 <= d.green && 0.0 <= d.blue
  {
    var f := DiffuseFactor(m, nl, iLight);
    ProdNonNegative(src.color.red, f);
    ProdNonNegative(src.color.green, f);
    ProdNonNegative(src.color.blue, f);
    ProdNonNegative(src.color.red * f, m.color.red);
    ProdNonNegative(src.color.green * f, m.color.green);
    ProdNonNegative(src.color.blue * f, m.color.blue);
  }

  /** A surface that does not mirror, lit by no light, shows its ambient colour. */
  lemma MatteUnlitIsAmbient(lib: MathLib, ray: Line, result: Intersection, sources: seq<Light>,
                            spheres: seq<Sphere>, cubes: seq<Cube>, strength: real, depth: nat)
    requires HitIn(result, spheres, cubes)
    requires MaterialOf(result, spheres, cubes).reflection <= 0.0
    requires forall j | 0 <= j < |sources| :: !Visible(lib, result.p, sources[j], spheres, cubes)
    ensures var m := MaterialOf(result, spheres, cubes);
      Shading(lib, ray, result, sources, spheres, cubes, strength, depth) == MulDC(m.ambient, m.color)
  {
    var m := MaterialOf(result, spheres, cubes);
    var cs := Contributions(lib, ray, result.p, SurfaceNormal(result, spheres), m, sources, spheres, cubes);
    AccumulateBlacks(MulDC(m.ambient, m.color), cs);
  }

  /** `shade` is the mirror base plus the sum of what the lights contribute. */
  lemma ShadingIsBasePlusLights(lib: MathLib, ray: Line, result: Intersection, sources: seq<Light>,
                                    spheres: seq<Sphere>, cubes: seq<Cube>, strength: real, depth: nat)
    requires HitIn(result, spheres, cubes)
    ensures var m := MaterialOf(result, spheres, cubes);
      var cs := Contributions(lib, ray, result.p, SurfaceNormal(result, spheres), m, sources, spheres, cubes);
      Shading(lib, ray, result, sources, spheres, cubes, strength, depth) ==
        AddC(MirrorBase(lib, ray, result, sources, spheres, cubes, strength, depth), Accumulate(Black, cs))
  {
    var m := MaterialOf(result, spheres, cubes);
    var cs := Contributions(lib, ray, result.p, SurfaceNormal(result, spheres), m, sources, spheres, cubes);
    AccumulateOntoBase(MirrorBase(lib, ray, result, sources, spheres, cubes, strength, depth), cs);
  }

  /** A mirror whose ray finds nothing else to show is its ambient share plus the lights. */
  lemma MirrorMissKeepsAmbientShare(lib: MathLib, ray: Line, result: Intersection, sources: seq<Light>,
                                    spheres: seq<Sphere>, cubes: seq<Cube>, strength: real, depth: nat)
    requires HitIn(result, spheres, cubes)
    requires var m := MaterialOf(result, spheres, cubes);
      m.reflection > 0.0 &&
      var reflection := SceneHit(lib, Reflected(lib, ray, result.p, SurfaceNormal(result, spheres), strength),
                                 strength, spheres, cubes);
      reflection.i == -1 || Eq(reflection.p, result.p) || depth == 0
    ensures var m := MaterialOf(result, spheres, cubes);
      var cs := Contributions(lib, ray, result.p, SurfaceNormal(result, spheres), m, sources, spheres, cubes);
      Shading(lib, ray, result, sources, spheres, cubes, strength, depth) ==
        AddC(MulDC(1.0 - m.reflection, MulDC(m.ambient, m.color)), Accumulate(Black, cs))
  {
    var m := MaterialOf(result, spheres, cubes);
    var cs := Contributions(lib, ray, result.p, SurfaceNormal(result, spheres), m, sources, spheres, cubes);
    MirrorBaseMiss(lib, ray, result, sources, spheres, cubes, strength, depth);
    ShadingIsBasePlusLights(lib, ray, result, sources, spheres, cubes, strength, depth);
  }

  /** Without a mirror term the recursion bound plays no part. */
  lemma MatteIgnoresDepth(lib: MathLib, ray: Line, result: Intersection, sources: seq<Light>,
                          spheres: seq<Sphere>, cubes: seq<Cube>, strength: real, d1: nat, d2: nat)
    requires HitIn(result, spheres, cubes)
    requires MaterialOf(result, spheres, cubes).reflection <= 0.0
    ensures Shading(lib, ray, result, sources, spheres, cubes, strength, d1) ==
            Shading(lib, ray, result, sources, spheres, cubes, strength, d2)
  {}

  /**
   * The mirror chain from `result` ends within `d` bounces: the material does
   * not mirror, its mirror ray finds nothing else, or what it finds has a
   * chain that ends within `d - 1` bounces.
   */
  ghost predicate ChainEndsWithin(lib: MathLib, ray: Line, result: Intersection, spheres: seq<Sphere>,
                                  cubes: seq<Cube>, strength: real, d: nat)
    requires HitIn(result, spheres, cubes)
    decreases d
  {
    var m := MaterialOf(result, spheres, cubes);
    m.reflection <= 0.0 ||
    var reflectedRay := Reflected(lib, ray, result.p, SurfaceNormal(result, spheres), strength);
    var reflection := SceneHit(lib, reflectedRay, strength, spheres, cubes);
    reflection.i == -1 || Eq(reflection.p, result.p) ||
    (d > 0 && ChainEndsWithin(lib, reflectedRay, reflection, spheres, cubes, MirrorStrength(strength, reflection, m), d - 1))
  }

  /**
   * Once the mirror chain ends within `d` bounces, any recursion bound of at
   * least `d` gives the same colour: the unbounded recursion of `shade`
   * computes it too.
   */
  lemma {:induction false} DepthBeyondChainIsIrrelevant(lib: MathLib, ray: Line, result: Intersection,
                                                        sources: seq<Light>, spheres: seq<Sphere>, cubes: seq<Cube>,
                                                        strength: real, d: nat, d1: nat, d2: nat)
    requires HitIn(result, spheres, cubes)
    requires ChainEndsWithin(lib, ray, result, spheres, cubes, strength, d)
    requires d <= d1 && d <= d2
    ensures Shading(lib, ray, result, sources, spheres, cubes, strength, d1) ==
            Shading(lib, ray, result, sources, spheres, cubes, strength, d2)
    decreases d
  {
    var m := MaterialOf(result, spheres, cubes);
    if m.reflection > 0.0 {
      var reflectedRay := Reflected(lib, ray, result.p, SurfaceNormal(result, spheres), strength);
      var reflection := SceneHit(lib, reflectedRay, strength, spheres, cubes);
      if reflection.i >= 0 && !Eq(reflection.p, result.p) {
        DepthBeyondChainIsIrrelevant(lib, reflectedRay, reflection, sources, spheres, cubes,
                                     MirrorStrength(strength, reflection, m), d - 1, d1 - 1, d2 - 1);
        MirrorBaseHit(lib, ray, result, sources, spheres, cubes, strength, d1);
        MirrorBaseHit(lib, ray, result, sources, spheres, cubes, strength, d2);
      } else {
        MirrorBaseMiss(lib, ray, result, sources, spheres, cubes, strength, d1);
        MirrorBaseMiss(lib, ray, result, sources, spheres, cubes, strength, d2);
      }
    }
  }
}
