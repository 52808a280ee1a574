/**
 * The render loop `render` (c/ray-cast.h:526-552): every cell of the
 * frame buffer is the average of up to nine supersamples, each the shading
 * of whatever its ray hits first, or black.
 */
module Renderer {
  import opened Arith
  import opened Vectors
  import opened Scene
  import opened Resolver
  import opened Shader

  /** RAYCASTER_SUPERSAMPLING_X and RAYCASTER_SUPERSAMPLING_Y: the offsets of the samples in a pixel. */
  const SupersamplingX: seq<real> := [0.0, -0.5, 0.5, 0.5, -0.5, 0.0, 0.5, 0.0, -0.5]
  const SupersamplingY: seq<real> := [0.0, 0.5, 0.5, -0.5, -0.5, 0.5, 0.0, -0.5, 0.0]

  /**
   * What one pixel is rendered from: the maths routines, the camera's
   * `getRay` (which unprojects a window position into a ray), how far rays
   * reach, the scene and the mirror depth bound.
   */
  datatype View = View(lib: MathLib, getRay: (real, real) -> Line, far: real,
                       sources: seq<Light>, spheres: seq<Sphere>, cubes: seq<Cube>, depth: nat)

  /** The ray of sample `k` of pixel (i, j). */
  function SampleRay(v: View, i: int, j: int, k: nat): Line
    requires k < |SupersamplingX|
  {
    v.getRay(i as real + SupersamplingX[k], j as real + SupersamplingY[k])
  }

  /**
   * Sample `k` of pixel (i, j): the shading of the first thing its ray hits
   * within `far`, with the ray's length beyond the hit as strength; black
   * when the ray hits nothing.
   */
  function Sample(v: View, i: int, j: int, k: nat): Color
    requires k < |SupersamplingX|
  {
    var ray := SampleRay(v, i, j, k);
    var hit := SceneHit(v.lib, ray, v.far, v.spheres, v.cubes);
    if hit.i >= 0 then Shading(v.lib, ray, hit, v.sources, v.spheres, v.cubes, LenL(v.lib, ray) - hit.len, v.depth)
    else Black
  }

  /** The samples of pixel (i, j), as a function of the sample index (black past the last offset). */
  function Samples(v: View, i: int, j: int): nat -> Color {
    (k: nat) => if k < |SupersamplingX| then Sample(v, i, j, k) else Black
  }

  /**
   * The colours `f(0)`, ..., `f(n - 1)` added up in order, as `render` adds
   * samples into a cell. This is `Vectors.Accumulate` from black over
   * `f(0)`, ..., `f(n - 1)` (`SumColorsIsAccumulate`); it is indexed by a
   * function rather than a sequence so that the proofs about a pixel never
   * have to build the sequence of its samples, each of which unfolds into a
   * whole scene intersection and shading.
   */
  function SumColors(f: nat -> Color, n: nat): Color {
    if n == 0 then Black else AddC(SumColors(f, n - 1), f(n - 1))
  }

  /** Adding up `f` is accumulating the sequence of its first `n` values from black. */
  lemma {:induction false} SumColorsIsAccumulate(f: nat -> Color, n: nat)
    ensures SumColors(f, n) == Accumulate(Black, seq(n, (k: int) requires 0 <= k => f(k)))
  {
    if n > 0 {
      SumColorsIsAccumulate(f, n - 1);
      var cs := seq(n, (k: int) requires 0 <= k => f(k));
      assert cs[..n - 1] == seq(n - 1, (k: int) requires 0 <= k => f(k));
    }
  }

  /** `compensation`: one over the number of samples (0 when there are none, where C divides by zero). */
  function Compensation(sampling: nat): real {
    Div(1.0, sampling as real)
  }

  /** The final colour of pixel (i, j): the sum of its samples scaled by the compensation. */
  function Pixel(v: View, i: int, j: int, sampling: nat): Color
    requires sampling <= |SupersamplingX|
  {
    MulDC(Compensation(sampling), SumColors(Samples(v, i, j), sampling))
  }

  /**
   * The part of `RayCaster` that `render` uses: the number of samples per
   * pixel, the viewport's width and height, the far plane and the frame
   * buffer, one colour per pixel.
   */
  class RayCaster {
    const sampling: nat
    const width: nat
    const height: nat
    const far: real
    const buffer: array2<Color>

    ghost predicate Valid()
      reads this
    {
      sampling <= |SupersamplingX| && buffer.Length0 == width && buffer.Length1 == height
    }

    /** A ray caster with a black frame buffer of `width` by `height` pixels. */
    constructor (sampling: nat, width: nat, height: nat, far: real)
      requires sampling <= |SupersamplingX|
      ensures Valid()
      ensures this.sampling == sampling && this.width == width && this.height == height && this.far == far
      ensures fresh(buffer)
    {
      this.sampling := sampling;
      this.width := width;
      this.height := height;
      this.far := far;
      buffer := new Color[width, height]((i, j) => Black);
    }

    /** `render`: every cell of the buffer becomes its pixel's colour. */
    method Render(lib: MathLib, getRay: (real, real) -> Line, sources: seq<Light>,
                  spheres: seq<Sphere>, cubes: seq<Cube>, depth: nat)
      requires Valid()
      modifies buffer
      ensures forall i, j | 0 <= i < width && 0 <= j < height ::
        buffer[i, j] == Pixel(View(lib, getRay, far, sources, spheres, cubes, depth), i, j, sampling)
    {
      ghost var v := View(lib, getRay, far, sources, spheres, cubes, depth);
      var compensation := Compensation(sampling);
      for i := 0 to width
        invariant forall a, b | 0 <= a < i && 0 <= b < height :: buffer[a, b] == Pixel(v, a, b, sampling)
      {
        for j := 0 to height
          invariant forall a, b | 0 <= a < i && 0 <= b < height :: buffer[a, b] == Pixel(v, a, b, sampling)
          invariant forall b | 0 <= b < j :: buffer[i, b] == Pixel(v, i, b, sampling)
        {
          RenderPixel(lib, getRay, sources, spheres, cubes, depth, compensation, i, j);
        }
      }
    }

    /**
     * The body of `render`'s loops for the cell (i, j): reset it, add the
     * shading of every sample whose ray hits something, then scale it by
     * `compensation`. No other cell changes.
     */
    method RenderPixel(lib: MathLib, getRay: (real, real) -> Line, sources: seq<Light>,
                       spheres: seq<Sphere>, cubes: seq<Cube>, depth: nat, compensation: real, i: nat, j: nat)
      requires Valid() && i < width && j < height
      requires compensation == Compensation(sampling)
      modifies buffer
      ensures buffer[i, j] == Pixel(View(lib, getRay, far, sources, spheres, cubes, depth), i, j, sampling)
      ensures forall a, b | 0 <= a < width && 0 <= b < height && (a != i || b != j) :: buffer[a, b] == old(buffer[a, b])
    {
      ghost var v := View(lib, getRay, far, sources, spheres, cubes, depth);
      buffer[i, j] := Black;
      for k := 0 to sampling
        invariant forall a, b | 0 <= a < width && 0 <= b < height && (a != i || b != j) :: buffer[a, b] == old(buffer[a, b])
        invariant buffer[i, j] == SumColors(Samples(v, i, j), k)
      {
        var hit, c := TraceSample(lib, getRay, far, sources, spheres, cubes, depth, i, j, k);
        if hit {
          buffer[i, j] := AddC(buffer[i, j], c);
        } else {
          BlackIsAddCIdentity(buffer[i, j]);
        }
      }
      buffer[i, j] := MulDC(compensation, buffer[i, j]);
    }
  }

  /**
   * One pass of `render`'s innermost loop: cast the ray of sample `k` of
   * pixel (i, j); when it hits something, `c` is the shading there, with the
   * ray's length beyond the hit as strength. Sample `k` is `c` on a hit and
   * black on a miss.
   */
  method TraceSample(lib: MathLib, getRay: (real, real) -> Line, far: real, sources: seq<Light>,
                     spheres: seq<Sphere>, cubes: seq<Cube>, depth: nat, i: nat, j: nat, k: nat)
    returns (hit: bool, c: Color)
    requires k < |SupersamplingX|
    ensures Samples(View(lib, getRay, far, sources, spheres, cubes, depth), i, j)(k) == (if hit then c else Black)
  {
    var ray := getRay(i as real + SupersamplingX[k], j as real + SupersamplingY[k]);
    var intersected := Intersect(lib, ray, far, spheres, cubes);
    hit := intersected.i >= 0;
    c := Black;
    if hit {
      var rayL := LenL(lib, ray);
      var strength := rayL - intersected.len;
      c := Shade(lib, ray, intersected, sources, spheres, cubes, strength, depth);
    }
  }

  /** Adding up colours that are all black gives black. */
  lemma {:induction false} SumOfBlacks(f: nat -> Color, n: nat)
    requires forall k | 0 <= k < n :: f(k) == Black
    ensures SumColors(f, n) == Black
  {
    if n > 0 {
      SumOfBlacks(f, n - 1);
      BlackIsAddCIdentity(Black);
    }
  }

  /** `n` equal colours add up to `n` times the colour. */
  lemma {:induction false} SumOfEqual(f: nat -> Color, n: nat, c: Color)
    requires forall k | 0 <= k < n :: f(k) == c
    ensures SumColors(f, n) == MulDC(n as real, c)
  {
    if n > 0 {
      SumOfEqual(f, n - 1, c);
      MulDCStep(n as real, c);
    }
  }

  /** A pixel none of whose sample rays hits anything is black. */
  lemma PixelAllMissesIsBlack(v: View, i: int, j: int, sampling: nat)
    requires sampling <= |SupersamplingX|
    requires forall k | 0 <= k < sampling :: SceneHit(v.lib, SampleRay(v, i, j, k), v.far, v.spheres, v.cubes).i == -1
    ensures Pixel(v, i, j, sampling) == Black
  {
    forall k | 0 <= k < sampling
      ensures Samples(v, i, j)(k) == Black
    {}
    SumOfBlacks(Samples(v, i, j), sampling);
  }

  /** The first sample of a pixel is taken through the pixel's own position. */
  lemma FirstSampleIsCentre(v: View, i: int, j: int)
    ensures SampleRay(v, i, j, 0) == v.getRay(i as real, j as real)
  {
    assert SupersamplingX[0] == 0.0 && SupersamplingY[0] == 0.0;
  }

  /** With one sample per pixel the pixel is that sample. */
  lemma SingleSamplePixel(v: View, i: int, j: int)
    ensures Pixel(v, i, j, 1) == Sample(v, i, j, 0)
  {
    assert SumColors(Samples(v, i, j), 1) == AddC(Black, Sample(v, i, j, 0));
    BlackIsAddCIdentity(Sample(v, i, j, 0));
    assert Compensation(1) == 1.0;
  }

  /** When all samples of a pixel agree, the compensation makes the pixel exactly that colour. */
  lemma PixelOfEqualSamples(v: View, i: int, j: int, sampling: nat, c: Color)
    requires 0 < sampling <= |SupersamplingX|
    requires forall k | 0 <= k < sampling :: Sample(v, i, j, k) == c
    ensures Pixel(v, i, j, sampling) == c
  {
    var n := sampling as real;
    SumOfEqual(Samples(v, i, j), sampling, c);
    assert Compensation(sampling) == 1.0 / n;
    MulDCUndo(n, c);
  }
}
