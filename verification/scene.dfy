/**
 * The records of a scene (c/ray-cast.h:63-112): materials, spheres, cubes,
 * lights and the two intersection records.
 */
module Scene {
  import opened Vectors

  datatype Option<T> = None | Some(value: T)

  /** `f` applied to every element of `xs`, in order. */
  function Map<T, U>(xs: seq<T>, f: T -> U): (ys: seq<U>)
    ensures |ys| == |xs|
  {
    seq(|xs|, k requires 0 <= k < |xs| => f(xs[k]))
  }

  /**
   * Surface parameters. `reflection` weighs the mirror image against the
   * surface's own colour; `shiny` is the specular exponent.
   */
  datatype Material = Material(
    reflection: real,
    specular: real,
    shiny: real,
    diffuse: real,
    ambient: real,
    color: Color)

  datatype Sphere = Sphere(position: Point, material: Material, radius: real)

  /** An axis-aligned cube centred on `position` with edge length `side`. */
  datatype Cube = Cube(position: Point, material: Material, side: real)

  /** A point light; `intensity` is also the reach of its shadow ray. */
  datatype Light = Light(position: Point, color: Color, intensity: real)

  /**
   * `struct intersection`: the answer of one primitive test. A length of -1
   * means "no hit"; the point and normal are then meaningless (C leaves
   * them unset, the model sets them to the origin).
   */
  datatype Hit = Hit(p: Point, normal: Point, len: real)

  const NoHit := Hit(Zero, Zero, -1.0)

  /** The `type` tag of an `Intersection`: 0 for spheres, 1 for cubes. */
  datatype Kind = SphereKind | CubeKind

  /**
   * `Intersection`: the nearest hit of a scan, with the index `i` of the
   * object hit in its own list, or `i == -1` and `len == -1` for a miss.
   */
  datatype Intersection = Intersection(p: Point, normal: Point, len: real, i: int, kind: Kind)

  function Missed(kind: Kind): Intersection {
    Intersection(Zero, Zero, -1.0, -1, kind)
  }

  /** The intersection names an object that exists in the list of its kind. */
  predicate HitIn(r: Intersection, spheres: seq<Sphere>, cubes: seq<Cube>) {
    match r.kind
    case SphereKind => 0 <= r.i < |spheres|
    case CubeKind => 0 <= r.i < |cubes|
  }
}
