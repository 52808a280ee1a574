# Ray caster: intersection, shading and rendering

A Dafny model of the ray-casting core of `c/ray-cast.h`, an OpenGL-era
ray caster that draws spheres and axis-aligned cubes lit by point lights.
The model works over `real` numbers, an idealised version of the C
`double` code. It covers:

- **Vectors** (`vectors.dfy`): the point, line and colour algebra. This
  includes the tolerance comparison `eq` with `RAYCASTER_PRECISION = 1e-9`.
  `sqrt` and `pow` from `<math.h>` are fields of a `MathLib` record that is
  passed in. `SoundSqrt` states what is assumed of `sqrt`, and lemmas that
  need it take it as a hypothesis.
- **Scene** (`scene.dfy`): materials, spheres, cubes, lights, the
  per-primitive `struct intersection` (`Hit`) and the tagged `Intersection`
  returned by the scans.
- **Spheres** (`sphere.dfy`): `intersectSphere`. This is the quadratic
  with its two roots, the tangent miss, the sign-based root choice and the
  distance-based override.
- **Cubes** (`cube.dfy`):
  - `intersectPlane` is a method that updates a `HitRecord` object, which
    stands for the pointer `ret`.
  - `intersectCube` threads one record through the six faces.
  - Both are specified by the pure functions `FaceHit`, `Keep` and
    `CubeHit`.
- **Resolver** (`resolver.dfy`):
  - `intersectAllSpheres` and `intersectAllCubes` are methods with the
    source's running-minimum loops.
  - They are proved equal to recursive scan functions.
  - Those scans are proved equal to a declarative "first nearest accepted
    test" (`Resolved`).
  - `intersect` merges the two results.
- **Shader** (`shader.dfy`): `shade`.
  - The ambient term and the recursive mirror term are the function
    `MirrorBase` and the method `MirrorTerm`.
  - The light loop, with its shadow test, specular term and clamped
    diffuse term, is the function `Shading` and the method `Shade`.
- **Renderer** (`renderer.dfy`): `render`, as a method of the class
  `RayCaster`.
  - It fills a `width` by `height` `array2<Color>` in place.
  - Each cell is reset to black, gets the shading of every supersample
    whose ray hits something, and is then scaled by `1 / sampling`.
  - The camera's `getRay` is a function parameter.

A ray that starts inside a sphere and heads towards its centre is
reported as hitting the sphere behind its origin, unless the ray is nearly
tangent (a discriminant below 1e-9 is a miss, c/ray-cast.h:280-281). The
override at c/ray-cast.h:307-308 picks the nearer root even when that root
is negative.
The model keeps this behaviour, and `Spheres.SphereFromInside` proves it.

## Model

| member | source | states |
|---|---|---|
| Vectors.Div | c/ray-cast.h:605-610 | the quotient behind `dv`, `phi`, the light falloff and the compensation; a zero divisor gives 0 (see Left out) |
| Vectors.Dot | c/ray-cast.h:571 | `dot`: the sum of the products of the coordinates |
| Vectors.Len | c/ray-cast.h:572 | `len`: `sqrt` of the squared length |
| Vectors.Len2p | c/ray-cast.h:573-578 | `len2p`: `sqrt` of the squared absolute coordinate differences; `Len2pSymmetric` states its symmetry |
| Vectors.LenL | c/ray-cast.h:579 | `lenL`: `len` of `toPoint` of the line; `LenLIsLen2p` makes it the distance between the end points |
| Vectors.Mul | c/ray-cast.h:580-585 | `mul`: every coordinate times the scalar |
| Vectors.Dv | c/ray-cast.h:605-610 | `dv`: every coordinate divided by the scalar; `DvUndoesMul` states that it undoes `mul` |
| Vectors.Cross | c/ray-cast.h:586-592 | `cross`: the cross product; `CrossOrthogonal` states that it is orthogonal to both operands |
| Vectors.Add | c/ray-cast.h:593-598 | `add`: the coordinate-wise sum |
| Vectors.Sub | c/ray-cast.h:599-604 | `sub`: the coordinate-wise difference; `SubAddInverse` states that it undoes `add` |
| Vectors.Eq | c/ray-cast.h:611-615 | `eq`: every coordinate differs by less than `RAYCASTER_PRECISION` |
| Vectors.ToPoint | c/ray-cast.h:618-624 | `toPoint`: the absolute coordinate differences of a line's end points |
| Vectors.Direction | c/ray-cast.h:625-629 | `direction`: the end-point difference divided by its length, for a line of non-zero length; `DirectionIsUnit` makes it a unit vector |
| Vectors.AddC | c/ray-cast.h:642-648 | `addC`: the component-wise sum of two colours |
| Vectors.MulDC | c/ray-cast.h:649-654 | `muldC`: every component times the scalar |
| Vectors.Mul2C | c/ray-cast.h:655-660 | `mul2C`: the component-wise product of two colours |
| Vectors.Accumulate | c/ray-cast.h:518 | the light loop's running `ret = addC(ret, tmp)` over a list of colours, in order |
| Vectors.AddCCommutative | c/ray-cast.h:642-648 | `addC(a, b) == addC(b, a)` |
| Vectors.AddCAssociative | c/ray-cast.h:642-648 | `addC` is associative |
| Vectors.BlackIsAddCIdentity | c/ray-cast.h:642-648 | `black` is a left and right identity of `addC` |
| Vectors.MulDCDistributesOverAddC | c/ray-cast.h:642-654 | `muldC(k, addC(a, b)) == addC(muldC(k, a), muldC(k, b))` |
| Vectors.MulDCUndo | c/ray-cast.h:649-654 | scaling by `1 / n` undoes scaling by a non-zero `n` |
| Vectors.Mul2CCommutative | c/ray-cast.h:655-660 | `mul2C` is commutative |
| Vectors.AccumulateOntoBase | c/ray-cast.h:480-519 | adding colours one by one onto a base equals the base plus their sum from black |
| Vectors.AccumulateBlacks | c/ray-cast.h:480-519 | adding only black colours leaves the base unchanged |
| Vectors.EqReflexive | c/ray-cast.h:611-615 | `eq(a, a)` |
| Vectors.EqSymmetric | c/ray-cast.h:611-615 | `eq(a, b)` exactly when `eq(b, a)` |
| Vectors.EqTolerance | c/ray-cast.h:611-615 | points whose coordinates all differ by less than the precision are `eq`; a difference of 1e-3 or more on any axis makes them not `eq` |
| Vectors.Len2pSymmetric | c/ray-cast.h:573-578 | `len2p(a, b) == len2p(b, a) == len(sub(a, b))` |
| Vectors.LenLIsLen2p | c/ray-cast.h:579 | the length of a line (through `toPoint`) is the distance between its end points |
| Vectors.SubAddInverse | c/ray-cast.h:593-604 | `add` and `sub` undo each other |
| Vectors.DvUndoesMul | c/ray-cast.h:580-610 | `dv(mul(k, a), k) == a` for non-zero `k` |
| Vectors.CrossOrthogonal | c/ray-cast.h:586-592 | `cross(a, b)` is orthogonal to `a` and to `b` |
| Vectors.DirectionIsUnit | c/ray-cast.h:625-629 | the direction of a line of non-zero length has squared length 1 and `len` 1 |
| Vectors.LenAlong | c/ray-cast.h:573-578 | along a unit direction, the point at parameter `t` lies at `len2p` distance `abs(t)` |
| Scene.Missed | c/ray-cast.h:317-320 | the miss of a scan: `len == -1` and `i == -1`, tagged with the kind scanned |
| Spheres.Along | c/ray-cast.h:289-290 | the point `origin + t * l` of the ray |
| Spheres.HalfB | c/ray-cast.h:271-273 | `b = dot(l, origin - position)` |
| Spheres.CentreDist2 | c/ray-cast.h:271-274 | `c = dot(oc, oc)`, the squared distance from the origin to the centre |
| Spheres.Discriminant | c/ray-cast.h:276 | `delta = b * b - c + radius * radius` |
| Spheres.Root0 | c/ray-cast.h:286 | `roots[0] = -b + sqrt(delta)` |
| Spheres.Root1 | c/ray-cast.h:287 | `roots[1] = -b - sqrt(delta)` |
| Spheres.IntersectSphere | c/ray-cast.h:270-315 | a reported hit has a discriminant of at least the precision, and its point is the point of root 0 or of root 1 |
| Spheres.SphereMissCases | c/ray-cast.h:276-300 | the test returns length -1 exactly when the discriminant is (nearly) zero or negative, or both roots lie below the precision |
| Spheres.SphereRootChoice | c/ray-cast.h:296-311 | on a unit direction, for a hit: root 1 is chosen when it is nearer in absolute distance, even when it lies behind the origin; root 0 only when it is in front and not farther (the `roots[0] < PRECISION` fallback cannot arise for a hit, since root 1 never exceeds root 0) |
| Spheres.SphereFromOutside | c/ray-cast.h:296-311 | from outside the sphere a hit is always the near root, and it lies in front of the origin |
| Spheres.SphereFromInside | c/ray-cast.h:296-311 | from inside the sphere, heading towards the centre, and not nearly tangent (discriminant at least 1e-9), the hit reported is the near root behind the origin, at distance `-root1` |
| Spheres.SphereAxialHit | c/ray-cast.h:270-315 | a ray aimed at the centre from distance `d` outside a sphere (whose squared radius is at least 1e-9) is reported as a hit at distance `d - radius`, at the point that far along the ray |
| Spheres.RootsOnSphere | c/ray-cast.h:286-290 | when the discriminant is non-negative both roots give points on the sphere's surface |
| Spheres.SphereHitOnSurface | c/ray-cast.h:286-312 | every point the sphere test reports lies on the sphere |
| Cubes.FaceNormal | c/ray-cast.h:348 | a face's normal: the cross product of the directions from the pivot towards `a` and towards `b` |
| Cubes.FaceParam | c/ray-cast.h:349-352 | the ray parameter `dot(pivot - origin, n) / dot(l, n)` at which the ray meets the face's plane |
| Cubes.InBox | c/ray-cast.h:358-365 | the box test: no coordinate of the point, taken relative to the centre, exceeds `half` by more than the precision |
| Cubes.FaceHit | c/ray-cast.h:347-367 | a face's offered hit has the length `len2p(p, origin)` |
| Cubes.Keep | c/ray-cast.h:368-372 | the update through `ret`: the record either stays or becomes the offered hit, and it stays when nothing is offered |
| Cubes.KeepAll | c/ray-cast.h:388-404 | the record after offering a list of faces in order, starting from the empty record |
| Cubes.IntersectPlane | c/ray-cast.h:347-374 | the record becomes `Keep(old record, FaceHit(...))`: unchanged for a parallel ray, a plane behind the origin or a point outside the box; otherwise replaced when it is empty or strictly farther |
| Cubes.HitRecord.constructor | c/ray-cast.h:388-389 | a fresh record holds no hit (length -1) |
| Cubes.Half | c/ray-cast.h:376 | `half = side * 0.5` |
| Cubes.CornersOf | c/ray-cast.h:378-386 | the eight corners `a` to `h` at `position` plus or minus `half` on each axis, as in the source |
| Cubes.CubeFaces | c/ray-cast.h:391-402 | a cube offers six faces to the ray |
| Cubes.Offers | c/ray-cast.h:391-402 | one offer per face, in the order the faces are given |
| Cubes.CubeHit | c/ray-cast.h:375-405 | `intersectCube` as a function: `KeepAll` over the offers of the six faces; `CubeHitNearestFace` states its meaning |
| Cubes.CubeHitUnrolled | c/ray-cast.h:391-404 | the running result over the six faces is the nested `Keep` of the six face offers in source order |
| Cubes.IntersectCube | c/ray-cast.h:375-405 | the method's result is `CubeHit` |
| Cubes.KeepAllIsFirstNearest | c/ray-cast.h:368-372 | with non-negative offers: empty exactly when nothing is offered; otherwise an offered hit no farther than any offer and strictly nearer than every earlier one |
| Cubes.FaceLengthsNonNegative | c/ray-cast.h:367 | every face offers a non-negative distance |
| Cubes.CubeHitNearestFace | c/ray-cast.h:375-405 | `intersectCube` is a miss exactly when no face offers a hit; otherwise it is the nearest face offered, the first of equally near ones |
| Cubes.FaceHitGeometry | c/ray-cast.h:348-367 | a face's hit lies in front of the origin, on the face's plane, inside the box; it carries the face normal, and on a unit direction its length is its ray parameter; `CubeFaceHitOutward` says which normal that is |
| Cubes.TopFaceNormal | c/ray-cast.h:391-392 | the top face (pivot `d`, towards `b` and `c`) has the outward unit normal +y |
| Cubes.BottomFaceNormal | c/ray-cast.h:393-394 | the bottom face (pivot `g`, towards `f` and `h`) has the outward unit normal -y |
| Cubes.FrontFaceNormal | c/ray-cast.h:395-396 | the front face (pivot `b`, towards `d` and `f`) has the outward unit normal +z |
| Cubes.BackFaceNormal | c/ray-cast.h:397-398 | the back face (pivot `h`, towards `c` and `g`) has the outward unit normal -z |
| Cubes.RightFaceNormal | c/ray-cast.h:399-400 | the right face (pivot `a`, towards `b` and `g`) has the outward unit normal +x |
| Cubes.LeftFaceNormal | c/ray-cast.h:401-402 | the left face (pivot `e`, towards `d` and `h`) has the outward unit normal -x |
| Cubes.FacePivotOffsets | c/ray-cast.h:378-402 | every face's pivot lies half a side out from the centre along that face's outward normal |
| Cubes.CubeFaceNormal | c/ray-cast.h:378-402 | for a cube of positive side, face `j` has the `j`-th outward unit axis vector (+y, -y, +z, -z, +x, -x) as its normal, and its pivot lies on the plane half a side out along it |
| Cubes.CubeFaceHitOutward | c/ray-cast.h:347-402 | a ray on a unit direction that face `j` accepts gets back that face's outward unit normal, and a point on the face's plane, half a side from the centre along that normal |
| Cubes.AxisDot | c/ray-cast.h:378-402 | two faces' outward normals have dot product 1 for the same face, -1 for opposite faces (top and bottom, front and back, right and left), 0 otherwise; opposite faces have reversed normals |
| Cubes.AimedFaceOffer | c/ray-cast.h:347-402 | a ray starting `s` out from the centre along face `j`'s outward normal, clear of the face, and heading straight back in, is offered by face `j` its centre, its outward normal and distance `s - half` |
| Cubes.AimedBackOffer | c/ray-cast.h:347-402 | the same ray is offered by the opposite face that face's centre, its outward normal and distance `s + half` |
| Cubes.AimedSideOffer | c/ray-cast.h:348-350 | the same ray runs parallel to the other four faces, which offer nothing |
| Cubes.CubeAimedHit | c/ray-cast.h:375-405 | `intersectCube` reports that ray as hitting face `j`, at the face's centre, with the face's outward normal, at distance `s - half` |
| Resolver.Accepted | c/ray-cast.h:332-333 | a scan keeps a test only when `0 < len < distance` |
| Resolver.Bound | c/ray-cast.h:324-334 | the `distance` a test must beat: `strength` until a test is accepted, then the best length so far |
| Resolver.SphereTests | c/ray-cast.h:323-331 | the answer of every sphere along the ray's direction, in list order |
| Resolver.CubeTests | c/ray-cast.h:413-421 | the answer of every cube along the ray's direction, in list order |
| Resolver.Nearest | c/ray-cast.h:329-339 | the index is -1 exactly when no test has `0 < len < strength`; otherwise an accepted test no farther than any accepted one and strictly nearer than every earlier accepted one |
| Resolver.Resolved | c/ray-cast.h:316-345 | the scan's declarative result: a miss carries `i == -1` and `len == -1`; a hit copies its test's point, normal and length, with `0 < len < strength` and the first-nearest property |
| Resolver.SphereScan | c/ray-cast.h:330-339 | the sphere scan's result is tagged as a sphere, has an index in range, is `Missed` when `i == -1` and otherwise has `0 < len < strength` |
| Resolver.CubeScan | c/ray-cast.h:420-430 | the same for the cube scan, tagged as a cube |
| Resolver.SphereStep | c/ray-cast.h:331-338 | one turn of the sphere loop; same guarantees as `SphereScan` |
| Resolver.CubeStep | c/ray-cast.h:421-429 | one turn of the cube loop; same guarantees as `CubeScan` |
| Resolver.SphereScanIsResolved | c/ray-cast.h:316-345 | the running-minimum scan over the spheres equals `Resolved` over the sphere tests |
| Resolver.CubeScanIsResolved | c/ray-cast.h:406-434 | the running-minimum scan over the cubes equals `Resolved` over the cube tests |
| Resolver.SpheresHit | c/ray-cast.h:316-345 | `i == -1` exactly when `len == -1`; a miss is the sphere-tagged sentinel; a hit has an index in range, `0 < len < strength` and a ray of non-zero length |
| Resolver.CubesHit | c/ray-cast.h:406-434 | the same for cubes, tagged as a cube |
| Resolver.SpheresHitIsResolved | c/ray-cast.h:316-345 | for a ray of non-zero length, `intersectAllSpheres` is `Resolved` over the sphere tests: a miss exactly when no test has `0 < len < strength` (an empty list included), otherwise the first sphere of smallest accepted length |
| Resolver.CubesHitIsResolved | c/ray-cast.h:406-434 | the same for `intersectAllCubes` over the cube tests |
| Resolver.IntersectAllSpheres | c/ray-cast.h:316-345 | the loop computes `SpheresHit` |
| Resolver.IntersectAllCubes | c/ray-cast.h:406-434 | the loop computes `CubesHit` |
| Resolver.Merge | c/ray-cast.h:440-447 | a cube miss yields the sphere result; otherwise a sphere miss yields the cube; otherwise the nearer, and the sphere on a tie; a miss only when both miss |
| Resolver.SceneHit | c/ray-cast.h:436-448 | `i == -1` exactly when `len == -1`; a hit has `0 < len < strength` and names an existing object of its kind |
| Resolver.Intersect | c/ray-cast.h:436-448 | the method computes `SceneHit` |
| Resolver.SceneHitIsNearest | c/ray-cast.h:436-448 | the scene is missed exactly when no test of either kind is accepted; otherwise the hit is no farther than any accepted test of either kind, and a cube wins only when strictly nearer than every accepted sphere |
| Shader.SurfaceNormal | c/ray-cast.h:450 | the normal at the hit: the face normal for a cube, `(p - position) / radius` for a sphere |
| Shader.MaterialOf | c/ray-cast.h:453 | the material of the object hit |
| Shader.Visible | c/ray-cast.h:485-490 | the shadow test: the ray from the light to the point, as long as the light's intensity, hits something first at a point `eq` to the hit point |
| Shader.ToLight | c/ray-cast.h:485-495 | the unit vector from the point towards the light |
| Shader.Irradiance | c/ray-cast.h:492-493 | `iLight`: the light's intensity divided by the squared distance to it |
| Shader.Phi | c/ray-cast.h:497-499 | `phi`: the cosine between the light mirrored about the normal and the ray's origin |
| Shader.Specular | c/ray-cast.h:501-507 | `tmp` after the specular step: `specular * pow(phi, shiny) * iLight` times the light's colour when `phi > 0`, black otherwise |
| Shader.Diffuse | c/ray-cast.h:509-515 | the diffuse term: the light's colour scaled by `DiffuseFactor`, times the material colour |
| Shader.LitBy | c/ray-cast.h:492-515 | `tmp` for a visible light: the specular term, plus the diffuse term unless `reflection >= 1` |
| Shader.LightContribution | c/ray-cast.h:482-518 | one turn of the light loop: `LitBy` when the light is visible, black otherwise |
| Shader.Contributions | c/ray-cast.h:481-519 | the contributions of all lights, one per light, in order |
| Shader.Reflected | c/ray-cast.h:457-459 | the mirror ray: from the hit point along the viewer direction mirrored about the normal, `strength` long |
| Shader.MirrorStrength | c/ray-cast.h:462-463 | `str = (strength - reflection.len) * reflection` |
| Shader.MirrorBase | c/ray-cast.h:453-478 | `ret` before the light loop: the ambient colour, blended with the mirrored shading when the material reflects; `MirrorBaseHit` and `MirrorBaseMiss` state both cases |
| Shader.Shading | c/ray-cast.h:449-525 | `shade` as a function: `MirrorBase` with each light's contribution added in order; `ShadingIsBasePlusLights` and `MatteUnlitIsAmbient` state its meaning |
| Shader.DiffuseFactor | c/ray-cast.h:510-513 | the diffuse weight is `diffuse * (1 - reflection) * NL * iLight` when that is non-negative and 0 otherwise; it is never negative |
| Shader.LightTerm | c/ray-cast.h:492-515 | the specular and diffuse terms of a visible light equal `LitBy` |
| Shader.MirrorBaseHit | c/ray-cast.h:456-473 | a mirror whose reflected ray hits another point, with depth left, blends `(1 - reflection)` of its ambient colour with `reflection` times the shading found there |
| Shader.MirrorBaseMiss | c/ray-cast.h:465-477 | a mirror whose reflected ray misses, returns to the point itself, or has no depth left keeps `(1 - reflection)` of its ambient colour |
| Shader.MirrorTerm | c/ray-cast.h:449-478 | the ambient and mirror part of `shade` equals `MirrorBase` |
| Shader.Shade | c/ray-cast.h:449-525 | the method equals `Shading`: the mirror base with every light's contribution added in order |
| Shader.ShadowedLightIsBlack | c/ray-cast.h:485-490 | a light whose shadow ray misses, or hits something not `eq` to the point, adds black |
| Shader.PerfectMirrorHasNoDiffuse | c/ray-cast.h:509-515 | a material with `reflection >= 1` gets only the specular term from a light |
| Shader.DiffuseNeverNegative | c/ray-cast.h:509-514 | with non-negative material and light colours, the diffuse term is non-negative in every component |
| Shader.MatteUnlitIsAmbient | c/ray-cast.h:453-519 | with `reflection <= 0` and no light that sees the point (in particular no lights), the result is exactly `muldC(ambient, color)` |
| Shader.ShadingIsBasePlusLights | c/ray-cast.h:449-525 | `shade` is the mirror base plus the sum of the light contributions |
| Shader.MirrorMissKeepsAmbientShare | c/ray-cast.h:465-519 | a mirror whose reflected ray finds nothing else is `(1 - reflection)` times its ambient colour, plus the lights |
| Shader.MatteIgnoresDepth | c/ray-cast.h:456 | without a mirror term the recursion bound does not change the result |
| Shader.DepthBeyondChainIsIrrelevant | c/ray-cast.h:454-478 | once the chain of mirror rays ends within `d` bounces, every recursion bound of at least `d` gives the same colour, so the bounded `shade` then agrees with the unbounded one |
| Renderer.SampleRay | c/ray-cast.h:536 | the ray of sample `k`: `getRay` at the pixel position plus the `k`-th offset |
| Renderer.Sample | c/ray-cast.h:536-545 | sample `k`: the shading at the nearest hit of its ray, with strength `lenL(ray) - len`, or black on a miss |
| Renderer.Samples | c/ray-cast.h:535-545 | the samples of a pixel indexed by `k` |
| Renderer.SumColors | c/ray-cast.h:534-550 | the cell's running `addC` over the first `n` samples, in order, from black |
| Renderer.SumColorsIsAccumulate | c/ray-cast.h:534-550 | adding up the samples is `Vectors.Accumulate` from black over the sequence of the first `n` samples |
| Renderer.Compensation | c/ray-cast.h:529-530 | `compensation = 1 / sampling` |
| Renderer.Pixel | c/ray-cast.h:529-551 | a pixel's final colour: `compensation` times the sum of its samples |
| Renderer.RayCaster.constructor | c/ray-cast.h:222-225 | a fresh buffer of `width` by `height` cells, with at most nine samples per pixel |
| Renderer.RayCaster.Render | c/ray-cast.h:526-552 | every cell `(i, j)` of the buffer ends as `Pixel`: `1 / sampling` times the sum, in order, of the shaded samples that hit something |
| Renderer.RayCaster.RenderPixel | c/ray-cast.h:533-551 | the cell `(i, j)` becomes its `Pixel` and every other cell keeps its colour |
| Renderer.TraceSample | c/ray-cast.h:536-545 | one sample is the shading at the ray's nearest hit, with strength `lenL(ray) - len`, or black when nothing is hit |
| Renderer.SumOfBlacks | c/ray-cast.h:534-550 | adding up only black samples gives black |
| Renderer.SumOfEqual | c/ray-cast.h:534-550 | adding up `n` equal samples gives `n` times the sample |
| Renderer.PixelAllMissesIsBlack | c/ray-cast.h:534-551 | a pixel none of whose sample rays hits anything is black |
| Renderer.FirstSampleIsCentre | c/ray-cast.h:7-8 | sample 0 is taken at the pixel's own position, without offset |
| Renderer.SingleSamplePixel | c/ray-cast.h:529-551 | with one sample per pixel the pixel is that sample |
| Renderer.PixelOfEqualSamples | c/ray-cast.h:529-551 | when all samples agree the compensation makes the pixel exactly that colour |

## Left out

- OpenGL: `newRayCaster` (matrices, viewport, `gluLookAt`, `gluPerspective`), `deleteRayCaster` and `getRay` (`gluUnProject` with `static` locals) are not modelled. The ray generator is a function parameter of `render`. The buffer is a fresh `array2<Color>` whose cells start black rather than uninitialised `malloc` memory.
- `newCamera`, `newLight`, `newSphere` and `newCube` are not modelled; they only assign fields, and the datatype constructors stand for them.
- `printP`, `printC`, the `debug` flag and the commented-out intensity falloff and blur pass are not modelled.
- Floating point: numbers are reals, so rounding, infinities and NaN are not modelled. `sqrt` and `pow` are parameters, and only `sqrt` has stated properties.
- Spheres.IntersectSphere: a discriminant of `-1e-9` or less gives NaN roots in C, which every caller rejects. Here it is a plain miss.
- Resolver.SpheresHit and Resolver.CubesHit: a ray of zero length has no direction; C computes NaN lengths that the scans reject. Here the scan reports a miss.
- Cubes.FaceHit: a face whose corners coincide (a cube of side 0) has a NaN normal in C. Here it offers nothing.
- Vectors.Div: a zero divisor gives 0 where C gives an infinity or NaN. It happens in three places.
  - `phi` and the mirror direction divide by the length of the shaded ray's origin. That length is zero whenever the ray being shaded starts at the world origin: a camera there, or, in a recursive `shade`, a mirror hit point at (0, 0, 0) (c/ray-cast.h:451, 457, 499). C's NaN fails `phi > 0` and gives a mirror ray that every scan rejects. Here `phi` is 0, so there is no specular term, and the mirror ray has zero length, so the scans report a miss (see `Resolver.SpheresHit`). The two agree on the colour.
  - `phi` also divides by the length of the reflected light, which can be zero.
  - The compensation divides by the number of samples. With zero samples C leaves NaN in every cell; here the cells are black.
- Shader.Visible: when the shadow ray hits nothing, C compares `result.p` with an unset point. Here the light is then hidden.
- Shader.Shading: the mirror recursion in `shade` has no bound in C, and its termination is not claimed. A `depth` argument bounds it here; with no depth left a mirror is treated as one whose reflected ray hits nothing.
- Scene.Hit: the point and normal of a miss, and the normal of a sphere hit, are left unset by C. Here they are the zero vector.
- Renderer.RayCaster.Render: `sampling` is at most 9, the length of the offset tables; C does no bounds check. The pixel loop body is the separate method `RenderPixel`, and one sample is the method `TraceSample`.
