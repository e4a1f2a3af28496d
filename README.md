# A Dafny model of the Python ray tracer

This project models the core of a small Python ray tracer and proves
properties of that model:

- three-component vectors, and the interval tests whose bounds may be infinite;
- rays and the standalone `hit_sphere` test;
- the hit record and its face-orientation rule;
- the intersection routines of spheres, axis-aligned cubes and hittable lists;
- the scatter rules of the materials, and the older duplicate material file;
- tone mapping to bytes (`write_color`);
- the camera, which covers `__initialize`, `get_ray` and the recursive `__ray_color`;
- the render scheduler, which covers `render_chunk` and the partition/concatenate/pad logic of `render`.

Floats are modelled as Dafny `real`s. The square root and the tangent of half
the field of view are parameters. `IsSqrt` states what a square-root parameter
must satisfy. Every random draw is a parameter too: the unit vector a scatter
uses, the pixel-square offsets of a sample, and the sample `random_on_hemisphere`
flips. Python exceptions become `Result` values over `PyError` (TypeError,
ZeroDivisionError, ValueError, IndexError). Interval bounds are extended reals
(`NegInf | Finite(r) | PosInf`).

The model follows the source's form:
- `HitRecord`, `HittableList`, `Camera` and the in-place operators of `Vec3` are
  classes whose methods update their fields.
- The loops of `Cube.hit`, `HittableList.hit`, `render_chunk` and `render`'s
  chunks and padding are methods with loop invariants. `write_color`'s store
  into the pixel map is a method over a two-dimensional array. Each is
  proved equal to a specification function. The properties are proved about
  those functions.
- Vectors, intervals, rays, materials, tone mapping and `__ray_color` are
  datatypes and functions.

The model follows the code as written, including these behaviours, which a
reader might not expect:

- The image height is always the image width: `aspect_ratio` is ignored, and
  the viewport is square (`Cameras.ViewportIsSquare`).
- Metal's fuzz is capped at 1. There is no lower clamp, so a negative fuzz is
  stored as given.
- The hit normal is not always a unit vector. A sphere's normal is
  `(p - center) / radius`.
- The cube's face scan pairs axis `i % 3` with `outward_normals[i]`, so y faces
  get x normals and z faces get y normals (`Cubes.YFaceGetsXNormal`,
  `Cubes.ZFaceGetsYNormal`). It also never produces a normal along z
  (`Cubes.CubeNormalNeverAlongZ`).
- A zero direction component of a ray that reaches the cube's slab loop raises
  ZeroDivisionError. It is not special-cased.
- Nothing validates the configuration. A zero `image_width` raises
  ZeroDivisionError inside `__initialize`, and so does a camera whose
  `lookfrom` equals `lookat` or whose `vup` is parallel to the view direction
  (`Cameras.InitializeRaises`). Other bad values are not rejected.
- The rows are split by `image_width // num_cores`. The pixel list is padded to
  `image_width ** 2` entries with its last entry. When the image is narrower
  than the number of cores, nothing is rendered and the padding raises
  IndexError (`Rendering.NarrowImageFails`).
- `write_color` does not check its subscripts. A negative one counts from the
  end of its axis, as numpy and PIL index; only one outside `-n <= i < n`
  raises IndexError (`Colors.WriteColor`).
- `render_chunk` calls `write_color` with two arguments, but the function
  takes five, so every pixel raises TypeError (see Findings).

## Model

| member | source | states |
|---|---|---|
| Vectors.Neg | General/Vectors.py:18-19 | negation is the additive inverse of a vector |
| Vectors.Sub | General/Vectors.py:27-28 | adding the subtrahend back gives the minuend |
| Vectors.AddLaws | General/Vectors.py:30-31 | `+` is commutative and associative, and the zero vector is neutral |
| Vectors.Mul | General/Vectors.py:41-43 | the componentwise product's components sum to `dot(u, v)` |
| Vectors.ScaleLengthSquared | General/Vectors.py:41-48 | scaling by `t` multiplies the squared length by `t^2` |
| Vectors.ScaleSplits | General/Vectors.py:41-48 | `(a + b) * v == a * v + b * v` |
| Vectors.Div | General/Vectors.py:61-62 | division by a non-zero scalar is undone by scaling; the source raises for zero, which callers rule out |
| Vectors.Length | General/Vectors.py:64-65 | with an exact square root, the length is non-negative and squares to the squared length |
| Vectors.LengthZero | General/Vectors.py:64-68 | with an exact square root, the length is zero exactly for the zero vector |
| Vectors.NearZero | General/Vectors.py:70-72 | the zero vector is near zero, and a vector near zero has squared length below `3e-16` |
| Vectors.LengthSquared | General/Vectors.py:67-68 | the squared length is the dot product of the vector with itself, and never negative |
| Vectors.Cross | General/Vectors.py:86-89 | the cross product is orthogonal to both inputs |
| Vectors.UnitVector | General/Vectors.py:92-94 | the only exception is ZeroDivisionError; a result scaled by the length gives the vector back |
| Vectors.Reflect | General/Vectors.py:116-117 | the reflection differs from the vector by a multiple of the normal |
| Vectors.RefractPerp | General/Vectors.py:120-122 | for a unit normal and a direction not past it, the perpendicular part is orthogonal to the normal |
| Vectors.Refract | General/Vectors.py:120-124 | with an exact square root, a unit normal and a direction not past it, the refracted direction never points along the normal |
| Vectors.RandomOnHemisphere | General/Vectors.py:108-113 | the result is the sample or its negation, always on the normal's side; it is the sample itself exactly when the sample lies strictly on that side |
| Vectors.DotSymmetric | General/Vectors.py:82-83 | `dot(u, v) == dot(v, u)` |
| Vectors.DotAdd | General/Vectors.py:82-83 | `dot(u + v, n) == dot(u, n) + dot(v, n)` |
| Vectors.DotScale | General/Vectors.py:82-83 | `dot(t * u, n) == t * dot(u, n)` |
| Vectors.CrossAntisymmetric | General/Vectors.py:86-89 | `cross(u, v) == -cross(v, u)` |
| Vectors.LagrangeIdentity | General/Vectors.py:82-89 | the squared length of `cross(u, v)` is the product of the squared lengths of `u` and `v` minus `dot(u, v)^2` |
| Vectors.CauchySchwarz | General/Vectors.py:82-83 | `dot(u, v)^2` is at most the product of the squared lengths of `u` and `v` |
| Vectors.UnitDotBounded | General/Vectors.py:82-83 | the dot product of two unit vectors lies in [-1, 1] |
| Vectors.LengthSquaredZero | General/Vectors.py:67-68 | the squared length is zero only for the zero vector |
| Vectors.UnitVectorIsUnit | General/Vectors.py:92-94 | `unit_vector` raises exactly for a zero-length vector and otherwise returns a vector of length one |
| Vectors.ReflectNegatesNormalComponent | General/Vectors.py:116-117 | reflection about a unit normal negates the component along the normal |
| Vectors.ReflectInvolutive | General/Vectors.py:116-117 | reflecting twice about a unit normal gives the original vector |
| Vectors.ReflectPreservesLength | General/Vectors.py:116-117 | reflection about a unit normal keeps the length |
| Vectors.RefractDecomposition | General/Vectors.py:120-124 | the refracted direction is `ratio * (uv + cos_theta * n)` plus a non-positive multiple of the normal |
| Vectors.RefractIndexOne | General/Vectors.py:120-124 | with ratio 1, a unit direction that meets a unit normal from the front passes unbent |
| Vectors.AddSubInverse | General/Vectors.py:27-31 | adding and subtracting the same vector cancel, in either order |
| Vectors.SubZero | General/Vectors.py:27-28 | a difference is the zero vector exactly when the operands are equal |
| Vectors.NegInvolutive | General/Vectors.py:18-19 | negating twice gives the original vector |
| Vectors.ScaleDistributes | General/Vectors.py:41-48 | scalar multiplication distributes over addition |
| Vectors.MutableVec3.constructor | General/Vectors.py:6-7 | a new vector holds the three given components |
| Vectors.MutableVec3.IAdd | General/Vectors.py:33-35 | `+=` replaces the components with the sum and returns the same object |
| Vectors.MutableVec3.ISub | General/Vectors.py:37-39 | `-=` replaces the components with the difference and returns the same object |
| Vectors.MutableVec3.IMul | General/Vectors.py:50-52 | `*=` replaces the components with the scaled ones and returns the same object |
| Vectors.MutableVec3.SetItem | General/Vectors.py:24-25 | item assignment always raises TypeError, because the components are a tuple, and changes nothing |
| Vectors.MutableVec3.ITrueDiv | General/Vectors.py:54-59 | `/=` raises ZeroDivisionError for a zero divisor and TypeError otherwise, and changes nothing |
| Intervals.Max | Hittable/Cube.py:34 | the larger of two bounds is one of them and not below either |
| Intervals.Min | Hittable/Cube.py:35 | the smaller of two bounds is one of them and not above either |
| Intervals.Interval.Contains | General/Interval.py:15-16 | a value is only contained in a non-empty interval, and every surrounded value is contained |
| Intervals.Interval.Surrounds | General/Interval.py:19-20 | a value is only surrounded by an interval whose minimum is below its maximum |
| Intervals.Between | General/Interval.py:9-20 | a finite interval contains exactly the closed range, and surrounds exactly the open one |
| Intervals.SurroundsImpliesContains | General/Interval.py:15-20 | every value the interval surrounds, it also contains |
| Intervals.Endpoints | General/Interval.py:15-20 | a finite endpoint of a non-empty interval is contained but not surrounded |
| Intervals.EmptyHoldsNothing | General/Interval.py:10-23 | the default, empty interval contains and surrounds nothing |
| Intervals.UniverseHoldsEverything | General/Interval.py:24 | the universe contains and surrounds every finite value |
| Intervals.ReversedIsEmpty | General/Interval.py:15-16 | an interval whose maximum is below its minimum contains nothing |
| Rays.NewRay | General/Rays.py:14-16 | a ray is built exactly when both origin and direction are given, and then holds them; an omitted argument raises TypeError |
| Rays.AtZero | General/Rays.py:27-28 | the point at parameter 0 is the origin |
| Rays.AtAffine | General/Rays.py:27-28 | `at(t1) - at(t2) == (t1 - t2) * dir` |
| Rays.HitSphere | General/Rays.py:32-42 | `hit_sphere` raises only ZeroDivisionError, and only past the discriminant test; a result other than -1.0 comes from a non-negative discriminant |
| Rays.NearerRoot | General/Rays.py:37-42 | a negative discriminant gives -1.0; otherwise the call raises exactly for `a == 0`, and the result `t` satisfies `a * t == -half_b - sqrt(discriminant)` |
| Rays.HitSphereMisses | General/Rays.py:37-40 | a negative discriminant returns the sentinel -1.0 |
| Rays.HitSphereRaises | General/Rays.py:32-42 | `hit_sphere` raises exactly for a ray without direction |
| Rays.ZeroDirectionRaises | General/Rays.py:32-42 | a ray with a zero direction makes `hit_sphere` raise, wherever it starts |
| Rays.ZeroDirectionDiscriminant | General/Rays.py:33-37 | a ray with a zero direction has a zero discriminant, so the division is reached |
| Rays.HitSphereIsNearerRoot | General/Rays.py:32-42 | for a non-negative discriminant and a non-zero direction, the returned parameter puts the ray on the sphere and is not above the other root |
| Rays.NearerRootSolves | General/Rays.py:37-42 | on the quadratic's coefficients, the minus-root solves the quadratic and is the smaller root |
| Rays.QuadraticRoot | General/Rays.py:37-42 | `(-half_b - s) / a`, with `s^2` the discriminant, is a root of `a t^2 + 2 half_b t + c` |
| Rays.GapIsQuadratic | General/Rays.py:33-36 | the squared distance from the ray point to the centre, minus `radius^2`, is the quadratic `a t^2 + 2 half_b t + c` |
| HittableObject.Filled | Hittable/HittableObject.py:14-19 | a record holding a hit has all five fields set to that hit's values |
| HittableObject.Held | Hittable/HittableObject.py:14-19 | a record with every field set holds exactly one hit |
| HittableObject.FaceNormal | Hittable/HittableObject.py:21-24 | the stored normal is the outward normal or its negation, never points along the ray, and is the outward normal whenever the ray arrives from outside |
| HittableObject.Outcome | Hittable/HittableObject.py:27-30 | `hit` returns True exactly for a found hit, and raises exactly for an effect carrying an exception |
| HittableObject.Apply | Hittable/HittableObject.py:27-30 | a found hit fills the record; a miss or an exception leaves it unchanged; a partial write leaves the normal and the face flag unchanged |
| HittableObject.HitRecord.constructor | Hittable/HittableObject.py:14-19 | `HitRecord()` has all five fields None |
| HittableObject.HitRecord.Init | Hittable/HittableObject.py:14-19 | a record built with explicit values holds them |
| HittableObject.HitRecord.SetFaceNormal | Hittable/HittableObject.py:21-24 | `front_face` holds exactly when `dot(dir, outward) < 0`; the normal is the face-corrected one; `p`, `t` and `material` are untouched |
| HittableObject.FaceNormalOpposesRay | Hittable/HittableObject.py:23-24 | after `set_face_normal`, `dot(dir, normal) <= 0`; the normal is the outward one exactly on a front face |
| Spheres.HitSphere | Hittable/Sphere.py:21-45 | `Sphere.hit` returns and writes exactly what the intersection effect says |
| Spheres.Intersect | Hittable/Sphere.py:21-45 | the sphere raises only ZeroDivisionError, and only for a ray with `dot(dir, dir) == 0`; a hit is at the nearer or the farther root |
| Spheres.SphereNonDegenerate | Hittable/Sphere.py:23-41 | a positive discriminant implies a non-zero direction and a non-zero radius, so neither division can fail |
| Spheres.SphereHasDirection | Hittable/Sphere.py:23-32 | a positive discriminant implies `dot(dir, dir) != 0` |
| Spheres.SphereHasRadius | Hittable/Sphere.py:25-41 | a positive discriminant implies a non-zero radius |
| Spheres.DirectionlessDiscriminant | Hittable/Sphere.py:22-26 | a ray without direction has a zero discriminant |
| Spheres.DirectionlessOrigin | Hittable/Sphere.py:22-26 | the same, from any origin |
| Spheres.PointDiscriminant | Hittable/Sphere.py:22-28 | a sphere of radius zero never has a positive discriminant |
| Spheres.SphereNeverRaises | Hittable/Sphere.py:21-45 | `Sphere.hit` never raises and never leaves a half-written record |
| Spheres.SphereHitRecord | Hittable/Sphere.py:33-42 | on True: `ray_t.min < t < ray_t.max`, `p == r.at(t)`, the material is the sphere's, and the normal is `±(p - center) / radius` with the face flag set and `dot(dir, normal) <= 0` |
| Spheres.SphereRootChoice | Hittable/Sphere.py:28-36 | the nearer root wins whenever the interval surrounds it; the farther root is used only otherwise; the call misses exactly when the interval surrounds neither |
| Spheres.SphereTangentMisses | Hittable/Sphere.py:26-45 | a discriminant of zero or below is a miss that leaves the record untouched |
| Spheres.NearRootFirst | Hittable/Sphere.py:32-34 | the first root tried is not above the second |
| Spheres.SphereHitOnSurface | Hittable/Sphere.py:29-39 | the reported point lies on the sphere's surface |
| Spheres.NearRootOnSurface | Hittable/Sphere.py:32 | the ray point at the nearer root lies on the surface |
| Spheres.FarRootOnSurface | Hittable/Sphere.py:34 | the ray point at the farther root lies on the surface |
| Spheres.RootOnSurface | Hittable/Sphere.py:29-34 | either root of the quadratic puts the ray point on the surface |
| Spheres.SphereNarrowerKeepsHit | Hittable/Sphere.py:33-36 | lowering `ray_t.max` to any value still above the reported `t` leaves the hit unchanged |
| Spheres.SphereWiderKeepsHit | Hittable/Sphere.py:33-36 | raising `ray_t.max` leaves a hit unchanged |
| Cubes.Axes | Hittable/Cube.py:28-33 | the per-axis entry/exit times exist exactly when that direction component is non-zero |
| Cubes.AxisTimes | Hittable/Cube.py:28-33 | an axis has crossing times exactly when its direction component is non-zero, and they are ordered when the corners are |
| Cubes.Slab | Hittable/Cube.py:22-37 | a passed slab loop only raised the lower bound and lowered the upper bound, and ends with `t_min < t_max` |
| Cubes.FaceScan | Hittable/Cube.py:52-60 | the scan stops at a counter below 6, or finds no face |
| Cubes.FaceScanMisses | Hittable/Cube.py:53-62 | the scan finds no face exactly when no remaining counter's axis has a plane within `epsilon` of the point |
| Cubes.FaceScanFirst | Hittable/Cube.py:53-60 | the scan stops at the first counter whose axis has a plane within `epsilon`; it takes the minimum plane unless only the maximum one is near |
| Cubes.OutwardIsUnitAxis | Hittable/Cube.py:44-59 | each normal handed out is a unit vector along the axis of its counter's pair: counters 0-1 along x, 2-3 along y, 4-5 along z |
| Cubes.Intersect | Hittable/Cube.py:21-62 | the cube raises only ZeroDivisionError; a half-written record never carries an exception; a hit carries the cube's material and a normal facing the ray |
| Cubes.HitCube | Hittable/Cube.py:21-62 | `Cube.hit` returns and writes exactly what the intersection effect says |
| Cubes.RecordCubeHit | Hittable/Cube.py:39-62 | after a passed slab loop, the writes of `t`, `p` and `material` and the face scan produce the intersection effect |
| Cubes.SlabLoop | Hittable/Cube.py:22-37 | the three-axis loop computes the slab outcome: a zero component raises, `t_max <= t_min` rejects, otherwise both bounds are returned |
| Cubes.ScanFaces | Hittable/Cube.py:53-62 | the six-way loop succeeds exactly when the face scan finds a face, then sets the face-corrected normal of that face; it never touches `p`, `t` or `material` |
| Cubes.FoundAt | Hittable/Cube.py:39-60 | a passed slab loop and a found face give a hit at `t_min` with that face's normal and the cube's material |
| Cubes.CubeBounds | Hittable/Cube.py:22-41 | after a passed slab loop, `ray_t.min <= t < ray_t.max` (the lower end is not strict), and `p` and the material are written whether or not the face scan then succeeds |
| Cubes.CubeRaises | Hittable/Cube.py:28-29 | the cube raises only ZeroDivisionError, only for a zero direction component, and always for a zero x component |
| Cubes.SlabRaises | Hittable/Cube.py:28-29 | the slab loop raises only at an axis whose direction component is zero |
| Cubes.SlabNarrower | Hittable/Cube.py:34-37 | lowering the upper bound to a value still above the accepted lower bound keeps the slab test passing with the same lower bound |
| Cubes.SlabWider | Hittable/Cube.py:34-37 | raising the upper bound keeps the slab test passing with the same lower bound |
| Cubes.CubeNarrowerKeepsHit | Hittable/Cube.py:22-37 | lowering `ray_t.max` to any value still above the reported `t` leaves the cube's effect unchanged |
| Cubes.CubeWiderKeepsHit | Hittable/Cube.py:22-37 | raising `ray_t.max` leaves a cube hit unchanged |
| Cubes.FaceScanFirstRound | Hittable/Cube.py:53-60 | counters 3 to 5 repeat the tests of counters 0 to 2, so the scan only ever stops at counters 0 to 2 |
| Cubes.FirstRoundAlongXOrY | Hittable/Cube.py:44-51 | the normals the first three counters hand out lie along x or y |
| Cubes.CubeNormalNeverAlongZ | Hittable/Cube.py:44-60 | every cube hit has a normal along x or y, never along z |
| Cubes.AxisNormalFlipped | Hittable/Cube.py:56-59 | the face correction keeps a normal along x or y along x or y |
| Cubes.YFaceGetsXNormal | Hittable/Cube.py:53-57 | a point on the lower y face, and on no x face, is handed the outward normal (1, 0, 0) |
| Cubes.ZFaceGetsYNormal | Hittable/Cube.py:53-60 | a point on the upper z face, and on no x or y face, is handed the outward normal (0, 1, 0) |
| HittableLists.HitEffect | Hittable/HittableList.py:23 | a sphere member only misses or hits; only a cube member can raise |
| HittableLists.HitObject | Hittable/HittableList.py:23 | `object.hit` returns and writes exactly the member's effect |
| HittableLists.HitEffectBounds | Hittable/HittableList.py:20-23 | every member reports a hit inside the interval it was asked about |
| HittableLists.HitEffectNarrower | Hittable/HittableList.py:20-25 | lowering the bound to a value still above a member's reported hit leaves its effect unchanged |
| HittableLists.HitEffectWider | Hittable/HittableList.py:20-25 | raising the bound leaves a member's reported hit unchanged |
| HittableLists.ShapesBehave | Hittable/HittableList.py:22-25 | spheres and cubes meet the three conditions the closest-hit proof needs |
| HittableLists.Scan | Hittable/HittableList.py:17-32 | before any member, nothing was hit, `closest_so_far` is `ray_t.max` and the record is as given |
| HittableLists.Advance | Hittable/HittableList.py:23-30 | `hit_anything` becomes true exactly on a found hit; the scan has raised exactly when an earlier member or this one raised |
| HittableLists.StepInside | Hittable/HittableList.py:22-25 | a member that reports only hits inside its interval reports, at each step, a `t` at or after `ray_t.min` and strictly below `closest_so_far` |
| HittableLists.ListOutcome | Hittable/HittableList.py:32 | `hit` raises exactly when a member raised, and returns True exactly when none raised and one hit |
| HittableLists.HittableList.constructor | Hittable/HittableList.py:8-9 | a new list is empty |
| HittableLists.HittableList.Clear | Hittable/HittableList.py:11-12 | `clear` leaves the list empty |
| HittableLists.HittableList.Add | Hittable/HittableList.py:14-15 | `add` appends at the end and leaves the earlier members unchanged |
| HittableLists.HittableList.Hit | Hittable/HittableList.py:17-32 | the loop's result and the record it leaves are those of the closest-hit scan over all members |
| HittableLists.Visit | Hittable/HittableList.py:22-30 | one turn asks the member about `Interval(ray_t.min, closest_so_far)` and advances the scan by its effect |
| HittableLists.CopyRecord | Hittable/HittableList.py:26-30 | the five copied fields make the record equal to the scratch record |
| HittableLists.ScanStopsAtRaise | Hittable/HittableList.py:22-23 | once a member raises, later members change nothing |
| HittableLists.RaiseEndsScan | Hittable/HittableList.py:22-23 | a raising member ends the scan with its exception and the record as it was |
| HittableLists.PrefixDidNotRaise | Hittable/HittableList.py:22-23 | a scan that did not raise did not raise on any shorter prefix |
| HittableLists.ScanReportsLastHit | Hittable/HittableList.py:19-32 | `hit` returns True exactly when some member's call returned True; then the record holds the last such member's fields; otherwise the record and `closest_so_far` are as they started |
| HittableLists.ScanHitFillsRecord | Hittable/HittableList.py:24-30 | once a member has hit, every field of the record is set |
| HittableLists.HitEffectMaterial | Hittable/HittableList.py:30 | a reported hit carries the reporting member's material |
| HittableLists.ScanHitMaterial | Hittable/HittableList.py:30 | after a scan that hit, the record's material is one member's material |
| HittableLists.ListHitMaterial | Hittable/HittableList.py:30 | the same for lists of spheres and cubes |
| HittableLists.ClosestNeverRises | Hittable/HittableList.py:20-25 | `closest_so_far` never rises during the scan |
| HittableLists.ReportedHitsDecrease | Hittable/HittableList.py:23-25 | each reported hit lies strictly below every hit reported before it |
| HittableLists.ScanFindsClosest | Hittable/HittableList.py:17-32 | the scan hits exactly when some member alone would hit the whole interval; then the record is the hit with the smallest `t` among them |
| HittableLists.ClosestStep | Hittable/HittableList.py:22-25 | the next member either beats the closest hit so far or leaves it the closest |
| HittableLists.QuietMembersNeverRaise | Hittable/HittableList.py:22-23 | a list whose members never raise never raises |
| HittableLists.ListFindsClosest | Hittable/HittableList.py:17-32 | the closest-hit property of `HittableList.hit` for spheres and cubes |
| HittableLists.SpheresNeverRaise | Hittable/HittableList.py:22-23 | a list of spheres never raises |
| Materials.NewMetal | General/Material.py:41-43 | the stored fuzz is the given one below 1 and exactly 1 otherwise, so it is at most 1; there is no lower clamp |
| Materials.NewDiffuseLight | General/Material.py:92-93 | the stored emission is `emit * scale_factor`, and `emit` itself when the scale factor is omitted |
| Materials.Scatter | General/Material.py:11-98 | only a light returns no ray; every ray starts at `rec.p`; Lambertian never raises; the attenuation is the albedo, (1, 1, 1) for glass, and the emission for a light |
| Materials.LambertianScatter | General/Material.py:24-35 | the ray leaves `rec.p` along `normal + sample`, or along the normal exactly when that sum is near zero; the attenuation is the albedo |
| Materials.MetalScatter | General/Material.py:46-53 | the call raises exactly when the incoming direction has no unit vector; otherwise the direction minus `fuzz * sample` is the mirror reflection, and the attenuation is the albedo |
| Materials.RefractionRatio | General/Material.py:68 | the ratio is `1 / ir` on a front face and `ir` on a back face |
| Materials.CosTheta | General/Material.py:70 | `cos_theta` is `dot(-unit_direction, normal)` capped at 1 |
| Materials.SinSquared | General/Material.py:70-71 | `1 - cos_theta^2` is at most 1, and is negative (so `sqrt` raises) exactly when `dot(unit_direction, normal) > 1` |
| Materials.CannotRefract | General/Material.py:72 | with an exact square root, a ratio in [0, 1] and a usable `1 - cos_theta^2`, the ray can always refract |
| Materials.DielectricDirection | General/Material.py:70-74 | the direction is the mirror reflection when `cannot_refract` holds and the refraction otherwise; `math.sqrt` raises ValueError exactly when `1 - cos_theta^2` is negative |
| Materials.DielectricScatter | General/Material.py:63-78 | a front face with `ir == 0` or a zero incoming direction raises ZeroDivisionError; any result has a ray from `rec.p` and attenuation (1, 1, 1) |
| Materials.MetalWithoutFuzzReflects | General/Material.py:48-53 | without fuzz, the metal scatters along the exact mirror reflection |
| Materials.UnitVectorSameSide | General/Material.py:48 | a unit vector points to the same side of a plane as the vector it came from |
| Materials.MetalReflectsAway | General/Material.py:46-53 | without fuzz, a ray arriving against a unit normal leaves on the normal's side |
| Materials.DielectricRaisesOnlyOnBadInput | General/Material.py:68-71 | with a unit normal, a non-zero direction and a usable index, glass never raises |
| Materials.CosThetaBounded | General/Material.py:70-71 | for unit vectors, `1 - cos_theta^2` lies in [0, 1] |
| Materials.DielectricIndexOnePassesStraight | General/Material.py:63-86 | glass of index 1, hit from behind against a unit normal, passes the ray along its unit direction |
| Materials.DielectricMirrorsWhenTrapped | General/Material.py:72-73 | when the ray cannot refract, the direction is `reflect(unit_direction, normal)`, whose normal component is the incoming one negated |
| Materials.DielectricBendsOtherwise | General/Material.py:73-86 | when the ray can refract, the direction is `ratio * (uv + cos_theta * n)` plus a non-positive multiple of the normal |
| LegacyMaterials.NewMetal | Material.py:31-33 | the older file stores fuzz below 1 unchanged and exactly 1 otherwise |
| LegacyMaterials.Scatter | Material.py:19-59 | every result is a ray from `rec.p`; Lambertian never raises; the attenuation is the albedo, or (1, 1, 1) for glass |
| LegacyMaterials.Embed | Material.py:15-44 | no material of the older file is a light |
| LegacyMaterials.LegacyAgrees | Material.py:15-66 | the older file's constructors and `scatter` agree with the newer file's on every input |
| Colors.LinearToGamma | General/VectorsColors.py:5-6 | numpy's square root yields NaN (modelled as None) exactly for a negative component |
| Colors.Clip | General/VectorsColors.py:22-24 | the clipped value lies in the range, equals the input inside it, and equals the nearer end outside it |
| Colors.SampleScale | General/VectorsColors.py:11 | the scale is the reciprocal of the sample count |
| Colors.Channel | General/VectorsColors.py:12-24 | a channel raises ValueError exactly for a negative scaled component, and is otherwise an integer in [0, 255] |
| Colors.Byte | General/VectorsColors.py:22-24 | `int(256 * x)` of a clipped value is in [0, 255] |
| Colors.ToneMap | General/VectorsColors.py:9-24 | a zero sample count raises ZeroDivisionError; otherwise the triple fails exactly when some scaled component is negative, and each channel is in [0, 255] |
| Colors.WriteColor | General/VectorsColors.py:9-26 | the tone map's exception propagates; otherwise the call raises IndexError exactly for a subscript outside `-n <= i < n` on either axis, writes the triple at the subscript (a negative one counting from the end), and writes nowhere else |
| Colors.GammaInvertsSquare | General/VectorsColors.py:5-6 | `linear_to_gamma` inverts squaring on non-negative values |
| Colors.ChannelMonotone | General/VectorsColors.py:17-24 | a brighter component never gives a darker channel |
| Colors.ChannelValue | General/VectorsColors.py:12-24 | a non-negative channel is `int(256 * clip(sqrt(c * scale), 0, 0.999))` |
| Colors.ClipMonotone | General/VectorsColors.py:22-24 | clipping and converting to a byte is monotone |
| Colors.FullIntensity | General/VectorsColors.py:11-24 | a summed component equal to the sample count maps to 255 |
| Colors.BlackStaysBlack | General/VectorsColors.py:9-24 | a zero colour maps to (0, 0, 0) |
| Cameras.Placed | Camera/Camera.py:128-142 | the placed frame has height equal to width, its centre at `lookfrom`, and the given basis vectors |
| Cameras.Initialized | Camera/Camera.py:121-142 | `__initialize` always sets the height and the centre first; it can only raise ZeroDivisionError, and then the viewport fields and `u`, `v` keep their earlier values |
| Cameras.InitializedRestarts | Camera/Camera.py:123-126 | the result of `__initialize` does not depend on the earlier height and centre |
| Cameras.InitializedPlaces | Camera/Camera.py:128-142 | when both unit vectors exist, `__initialize` places the whole frame and raises nothing |
| Cameras.FocalLength | Camera/Camera.py:129 | with an exact square root, the focal length is non-negative, and zero exactly when `lookfrom == lookat` |
| Cameras.ViewportHeight | Camera/Camera.py:130-132 | the viewport height is non-negative for non-negative inputs, and is `2 * h` per unit of focal length |
| Cameras.ViewportWidth | Camera/Camera.py:133 | width over height of the viewport equals `image_width` over the image height |
| Cameras.GetRay | Camera/Camera.py:161-172 | the ray leaves the camera centre and reaches the sampled point of the pixel square at `t = 1` |
| Cameras.PixelCenter | Camera/Camera.py:162 | pixel (0, 0) is centred at `pixel00_loc` |
| Cameras.SampleOffset | Camera/Camera.py:169-172 | zero offsets give no displacement |
| Cameras.SampleAtFractionalPixel | Camera/Camera.py:162-172 | the sampled point lies at the fractional grid position `(i + px, j + py)` |
| Cameras.Camera.constructor | Camera/Camera.py:43-50 | a new camera has the class-level default settings |
| Cameras.Camera.Initialize | Camera/Camera.py:121-142 | the method leaves the settings unchanged and produces the frame and the exception that the function `Cameras.Initialized` gives |
| Cameras.Camera.PlaceBasis | Camera/Camera.py:134-142 | the basis vectors and then the viewport produce the frame and the exception that `Cameras.Initialized` gives |
| Cameras.Camera.SetViewport | Camera/Camera.py:136-142 | the viewport assignments produce the placed frame and leave `w` unchanged |
| Cameras.Sky | Camera/Camera.py:156-158 | the sky colour raises exactly when the ray has no unit direction |
| Cameras.WorldHit | Camera/Camera.py:148-149 | after a hit every field of the record is set; an empty world neither hits nor raises |
| Cameras.SkyWeight | Camera/Camera.py:157 | for a unit direction the weight lies in [0, 1]: 0 straight down and 1 straight up |
| Cameras.Blend | Camera/Camera.py:158 | the blend is exactly 1 in blue; weight 0 gives white and weight 1 gives (0.5, 0.7, 1.0) |
| Cameras.RayColor | Camera/Camera.py:145-158 | a ray with no depth left is black |
| Cameras.ViewportIsSquare | Camera/Camera.py:123-133 | with height equal to width, the viewport width equals its height |
| Cameras.InitializeRaises | Camera/Camera.py:121-135 | `__initialize` raises exactly for a zero width, for `lookfrom == lookat`, or for `vup` parallel to the view direction |
| Cameras.BasisFails | Camera/Camera.py:134-135 | `w` fails exactly when `lookfrom == lookat`; then `u` fails exactly when `cross(vup, w)` is zero |
| Cameras.InitializedRaised | Camera/Camera.py:121-135 | where `__initialize` stops, in terms of the width and the two `unit_vector` calls |
| Cameras.UnitVectorFails | General/Vectors.py:92-94 | `unit_vector` raises exactly on the zero vector |
| Cameras.InitializedBasis | Camera/Camera.py:134-136 | after a successful `__initialize`, `u`, `v` and `w` are unit vectors and pairwise orthogonal |
| Cameras.UnitOfPerpendicular | Camera/Camera.py:134-135 | normalising a vector perpendicular to `n` keeps it perpendicular |
| Cameras.NeighbourPixels | Camera/Camera.py:162 | neighbouring pixel centres are one pixel step apart in each direction |
| Cameras.SkyBounds | Camera/Camera.py:156-158 | for a ray with a direction, the sky is exactly 1 in blue, red lies in [0.5, 1] and green in [0.7, 1] |
| Cameras.RayColorBounded | Camera/Camera.py:145-158 | in a world of materials that attenuate and emit at most 1 per channel, every ray colour lies in [0, 1] per channel |
| Cameras.SceneColorBounded | Camera/Camera.py:145-158 | the same for a world of spheres and cubes |
| Cameras.SkyColorBounded | Camera/Camera.py:156-158 | every sky colour lies in [0, 1] per channel |
| Cameras.EmptyWorldShowsSky | Camera/Camera.py:148-158 | in an empty world every ray with depth left sees the sky |
| Cameras.LightEndsPath | Camera/Camera.py:149-152 | a ray that reaches a light gets the light's emission, whatever depth and draws are left: the path ends there |
| Cameras.WorldRaisePropagates | Camera/Camera.py:149 | an exception from `world.hit` is the ray colour's exception |
| Cameras.MissShowsSky | Camera/Camera.py:149-158 | a ray with depth left that hits nothing sees the sky |
| Cameras.ScatterErrorPropagates | Camera/Camera.py:153 | an exception from the material's `scatter` is the ray colour's exception |
| Cameras.ScatterRecurses | Camera/Camera.py:153-155 | after a hit on a material other than a light, a successful scatter always yields a ray, and the colour is the attenuation times the colour of the scattered ray with one level less, or that ray's exception |
| Rendering.RenderChunk | Camera/Camera.py:25-38 | `render_chunk` returns the values of rows `chunk_start .. chunk_end - 1` in row-major order, or the first exception |
| Rendering.RenderRow | Camera/Camera.py:30-37 | the column loop returns the values of the row's pixels in order |
| Rendering.RenderPixel | Camera/Camera.py:31-36 | the sample loop returns the tone map of the summed samples of the pixel |
| Rendering.SampleFails | Camera/Camera.py:32-35 | a failing sample decides the pixel's value |
| Rendering.RowPrefixFails | Camera/Camera.py:30-37 | a failing pixel decides the row's value |
| Rendering.RowsStep | Camera/Camera.py:29-37 | a rendered row extends the rows before it |
| Rendering.RowsFail | Camera/Camera.py:29-37 | once a row fails, later rows change nothing |
| Rendering.SampleSumLayout | Camera/Camera.py:32-35 | the samples sum without exception exactly when every sample's colour is computed; otherwise the exception is some sample's |
| Rendering.PixelValueFails | Camera/Camera.py:31-36 | a pixel with a raising sample has no value |
| Rendering.JoinKeepsFront | Camera/Camera.py:89 | extending succeeds exactly when both parts do; the earlier values stay in front and the lengths add up; the first exception wins |
| Rendering.Chunk | Camera/Camera.py:78 | a chunk that renders holds `chunk_size` rows of `image_width` pixels |
| Rendering.Gathered | Camera/Camera.py:84-89 | the gathered list exists exactly when every chunk so far rendered; otherwise its exception is some chunk's |
| Rendering.Padded | Camera/Camera.py:91-104 | the padding keeps the list as a prefix; it can only raise IndexError, and only for an empty list |
| Rendering.Rendered | Camera/Camera.py:70-104 | a rendered image begins with the gathered chunk results; once every chunk rendered, the only possible exception is the padding's IndexError |
| Rendering.RenderResult | Camera/Camera.py:63-104 | a zero `image_width` raises ZeroDivisionError before any chunk; an image exists only after `__initialize` raised nothing |
| Rendering.ChunkSize | Camera/Camera.py:70 | `cores * chunk_size <= width < cores * chunk_size + cores`: the floor quotient |
| Rendering.Repeat | Camera/Camera.py:103-104 | the padding appends the required number of copies of the last entry |
| Rendering.Render | Camera/Camera.py:63-109 | `render` leaves the settings unchanged, sets the frame `__initialize` computes, and produces its exception or the padded pixel list over the world's ray colour |
| Rendering.RenderInitialized | Camera/Camera.py:70-104 | the chunk loop and the padding produce the list that the function `Rendering.Rendered` gives |
| Rendering.Pad | Camera/Camera.py:91-104 | the padding loop produces the list that the function `Rendering.Padded` gives |
| Rendering.GatheredFails | Camera/Camera.py:84-89 | once a chunk fails, later chunks change nothing |
| Rendering.RowInOneChunk | Camera/Camera.py:70-78 | each of the first `cores * chunk_size` rows lies in exactly one chunk, `j // chunk_size`; the remaining rows lie in none |
| Rendering.DivUnique | Camera/Camera.py:70 | the quotient by a positive divisor is the unique `q` with `q * d <= j < (q + 1) * d` |
| Rendering.JoinLaws | Camera/Camera.py:84-89 | extending by an empty list changes nothing, and extending is associative |
| Rendering.RowsSplit | Camera/Camera.py:78-89 | `a + b` rows are the first `a` rows followed by the next `b` |
| Rendering.GatheredIsRows | Camera/Camera.py:70-89 | the chunks, concatenated in submission order, are the first `cores * chunk_size` rows in order, each exactly once |
| Rendering.GatheredStep | Camera/Camera.py:78-89 | one more chunk extends the gathered rows by the next `chunk_size` rows |
| Rendering.ChunkCounts | Camera/Camera.py:78 | chunk `c` covers `chunk_size` rows right after the `c * chunk_size` rows before it, and none for a negative chunk size |
| Rendering.RowPrefixLayout | Camera/Camera.py:30-37 | a row renders exactly when every pixel in it does, and then holds every pixel's value in column order |
| Rendering.RowsLayout | Camera/Camera.py:29-37 | rows render exactly when every pixel does; then entry `k` is the pixel in column `k % width` of row `start + k // width` |
| Rendering.PaddedLayout | Camera/Camera.py:91-104 | the padding raises IndexError exactly for an empty list and a non-zero width; otherwise it keeps the list and fills it with copies of its last entry up to `width ** 2` entries |
| Rendering.RenderedImage | Camera/Camera.py:63-104 | a rendered image has exactly `width ** 2` entries; the first `cores * chunk_size * width` are the pixels in row-major order, and the rest copy the last rendered pixel |
| Rendering.ChunkedImage | Camera/Camera.py:70-104 | the same layout, for any per-pixel function |
| Rendering.PaddedRows | Camera/Camera.py:92-104 | the padded rows are laid out row-major, then padded with copies of the last pixel |
| Rendering.NarrowImageFails | Camera/Camera.py:70-102 | an image narrower than the number of cores raises IndexError at the padding |
| Rendering.WriteColorAsCalled | Camera/Camera.py:36 | the call of `write_color` with two arguments always raises |
| Rendering.AsWrittenNeverRenders | Camera/Camera.py:36 | with the call as written, `render` never produces an image |
| Rendering.CorrectedToneMap | General/VectorsColors.py:9-24 | the intended per-pixel value is always a triple of bytes |
| Rendering.CorrectedImageBytes | Camera/Camera.py:92-109 | with the intended call, every entry of a rendered image is a triple of bytes, as the `uint8` array expects |

## Left out

- Console and image output: the progress prints, the unused global `progress`, the numpy `reshape`, `Image.fromarray`, `save` with its datetime file name, and `show`. The model ends with the padded pixel list.
- Multiprocessing: the number of cores is a parameter instead of `cpu_count()`. `Pool.imap` is modelled as an in-order sequence of chunk results, which is what `imap` delivers.
- Randomness: `rnd.random`, `random.uniform`, `Vec3.random` and the rejection loop of `random_in_unit_sphere` behind `random_unit_vector`. The values they draw are parameters: the `Randomness` offsets and draws, and the `sample` of a scatter.
- Floating point: floats are reals, so rounding, overflow, NaN and infinity propagation are not modelled. Infinities appear only as interval bounds. `math.sqrt` and `tan(radians(vfov) / 2)` are parameters.
- `np.square(image_width) * 3` is computed on numpy integers that can overflow. The model uses unbounded integers.
- `int(difference / 3)` is modelled as exact division. Both sizes are multiples of 3 when every entry is a triple.
- `Vec3.__str__`, the accessors `x()`, `y()`, `z()` and `__getitem__`. These are plain reads of the components.
- `near_zero` is a predicate whose definition is the property: every component has magnitude below 1e-8.
- Lists nested inside lists: a list member is a sphere or a cube. The scenes build nothing else.
- The scratch record `temp_rec` of `HittableList.hit` starts with material 0 and `t` False. The model gives it None in both fields. The difference never reaches `rec`, because the fields are copied only after a member reports a hit, and every hit writes all five fields.
- `render_chunk` gets the ray colour and the per-pixel tone map as parameters (`Shader`, `toneMap`). `Rendering.Render` binds the ray colour to the world's members, and `Rendering.CorrectedImageBytes` uses `write_color`'s tone map.
- Cameras.RayColor: its own contract states only the zero-depth case. The other branches are stated by lemmas: an exception from `world.hit` by `Cameras.WorldRaisePropagates`, a miss by `Cameras.MissShowsSky`, a light by `Cameras.LightEndsPath`, a raising `scatter` by `Cameras.ScatterErrorPropagates`, and the recursive case by `Cameras.ScatterRecurses`. The branch where `scatter` returns no ray and the sky is shown is kept as the code has it, but it cannot be reached: only a light returns no ray (`Materials.Scatter`), and a light is answered by its emission before `scatter` is called.
- Cameras.Unset: the private fields `__image_height` … `__w` are bare annotations, so reading one before the first `__initialize` raises AttributeError. The model starts them at zero instead. Every path that reads them (`render`, and through it `get_ray`) runs `__initialize` first, so no modelled result depends on those starting values.

## Findings

| source | as written | input that shows it | evidently intended | confidence | as-written member | corrected member |
|---|---|---|---|---|---|---|
| Camera/Camera.py:36 | `write_color(pixel_color, camera.samples_per_pixel)` passes two arguments to a function that takes five (General/VectorsColors.py:9), so every pixel raises TypeError and no image is ever rendered | any camera and world with `image_width >= num_cores >= 1` that initializes | the pixel value is the tone-mapped byte triple that `write_color` computes for the summed colour | high, not executed | Rendering.AsWrittenNeverRenders | Rendering.CorrectedImageBytes |
