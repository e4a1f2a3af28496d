/** The camera of `Camera/Camera.py`: its settings, the viewport frame
    `__initialize` derives from them, the ray through a pixel sample
    (`get_ray`) and the recursive colour of a ray (`__ray_color`). */
module Cameras {
  import opened Errors
  import opened Vectors
  import opened Intervals
  import opened Rays
  import opened HittableObject
  import opened HittableLists
  import opened Materials

  /** The public settings a scene script assigns before rendering. */
  datatype Settings = Settings(imageWidth: int, aspectRatio: real, samplesPerPixel: int, maxDepth: int,
                               vfov: real, lookfrom: Vec3, lookat: Vec3, vup: Vec3)

  /** The class-level defaults. */
  const DefaultSettings: Settings :=
    Settings(100, 1.0, 10, 10, 90.0, Vec3(0.0, 0.0, -1.0), Zero, Vec3(0.0, 1.0, 0.0))

  /** The private fields `__initialize` derives from the settings. */
  datatype Frame = Frame(imageHeight: int, center: Vec3, pixel00: Vec3, deltaU: Vec3, deltaV: Vec3,
                         u: Vec3, v: Vec3, w: Vec3)

  /** The private fields before the first `__initialize`. */
  const Unset: Frame := Frame(0, Zero, Zero, Zero, Zero, Zero, Zero, Zero)

  // ---------------------------------------------------------------------------
  // __initialize

  /** `(lookfrom - lookat).length()`. */
  function FocalLength(sqrt: real -> real, s: Settings): (focal: real)
    ensures IsSqrt(sqrt) ==> 0.0 <= focal
    ensures IsSqrt(sqrt) ==> (focal == 0.0 <==> s.lookfrom == s.lookat)
  {
    LengthZero(sqrt, Sub(s.lookfrom, s.lookat));
    Length(sqrt, Sub(s.lookfrom, s.lookat))
  }

  /** `2 * h * focal_length`, with `h = tan(radians(vfov) / 2)`. */
  function ViewportHeight(h: real, focal: real): (height: real)
    ensures 0.0 <= h && 0.0 <= focal ==> 0.0 <= height
    ensures focal != 0.0 ==> height / focal == 2.0 * h
  {
    assert 0.0 <= h && 0.0 <= focal ==> 0.0 <= 2.0 * h * focal by {
      if 0.0 <= h && 0.0 <= focal { MulNonNegative(2.0 * h, focal); }
    }
    2.0 * h * focal
  }

  /** `viewport_height * (image_width / image_height)`. */
  function ViewportWidth(viewportHeight: real, width: int, height: int): (viewportWidth: real)
    requires height != 0
    ensures viewportWidth * height as real == viewportHeight * width as real
  {
    viewportHeight * (width as real / height as real)
  }

  /** The frame once both basis vectors exist; `tanHalf(vfov)` stands for
      `math.tan(math.radians(vfov) / 2)`. */
  function Placed(s: Settings, sqrt: real -> real, tanHalf: real -> real, w: Vec3, u: Vec3): (f: Frame)
    requires s.imageWidth != 0
    ensures f.imageHeight == s.imageWidth && f.center == s.lookfrom && f.w == w && f.u == u
  {
    var focal := FocalLength(sqrt, s);
    var viewportHeight := ViewportHeight(tanHalf(s.vfov), focal);
    var viewportWidth := ViewportWidth(viewportHeight, s.imageWidth, s.imageWidth);
    var v := Cross(w, u);
    var viewportU := Scale(viewportWidth, u);
    var viewportV := Scale(viewportHeight, Neg(v));
    var deltaU := Div(viewportU, s.imageWidth as real);
    var deltaV := Div(viewportV, s.imageWidth as real);
    var upperLeft := Sub(Sub(Sub(s.lookfrom, Scale(focal, w)), Div(viewportU, 2.0)), Div(viewportV, 2.0));
    Frame(s.imageWidth, s.lookfrom, Add(upperLeft, Scale(0.5, Add(deltaU, deltaV))), deltaU, deltaV, u, v, w)
  }

  /** `__initialize`: the frame afterwards and the exception raised, if any.
      The height and centre are assigned first; a zero width raises at the
      aspect ratio, a zero `lookfrom - lookat` at `w`, and a `vup` parallel
      to `w` at `u`, after `w` has been assigned. */
  function Initialized(s: Settings, before: Frame, sqrt: real -> real, tanHalf: real -> real)
    : (after: (Frame, Option<PyError>))
    ensures after.0.imageHeight == s.imageWidth && after.0.center == s.lookfrom
    ensures after.1.Some? ==> after.1.value == ZeroDivisionError
    ensures after.1.Some? ==> after.0.pixel00 == before.pixel00 && after.0.deltaU == before.deltaU
                              && after.0.deltaV == before.deltaV && after.0.u == before.u
                              && after.0.v == before.v
  {
    var started := before.(imageHeight := s.imageWidth, center := s.lookfrom);
    if s.imageWidth == 0 then (started, Some(ZeroDivisionError))
    else
      match UnitVector(sqrt, Sub(s.lookfrom, s.lookat))
      case Err(e) => (started, Some(e))
      case Ok(w) =>
        match UnitVector(sqrt, Cross(s.vup, w))
        case Err(e) => (started.(w := w), Some(e))
        case Ok(u) => (Placed(s, sqrt, tanHalf, w, u), None)
  }

  /** `__initialize` overwrites the height and centre before anything else. */
  lemma InitializedRestarts(s: Settings, before: Frame, sqrt: real -> real, tanHalf: real -> real)
    ensures Initialized(s, before.(imageHeight := s.imageWidth, center := s.lookfrom), sqrt, tanHalf)
            == Initialized(s, before, sqrt, tanHalf)
  {
  }

  /** When both basis vectors exist, `__initialize` places the whole frame. */
  lemma InitializedPlaces(s: Settings, before: Frame, sqrt: real -> real, tanHalf: real -> real, w: Vec3, u: Vec3)
    requires s.imageWidth != 0
    requires UnitVector(sqrt, Sub(s.lookfrom, s.lookat)) == Ok(w)
    requires UnitVector(sqrt, Cross(s.vup, w)) == Ok(u)
    ensures Initialized(s, before, sqrt, tanHalf) == (Placed(s, sqrt, tanHalf, w, u), None)
  {
  }

  // ---------------------------------------------------------------------------
  // get_ray

  /** The centre of pixel `(i, j)`: `pixel00_loc + i * delta_u + j * delta_v`. */
  function PixelCenter(f: Frame, i: int, j: int): (c: Vec3)
    ensures i == 0 && j == 0 ==> c == f.pixel00
  {
    Add(Add(f.pixel00, Scale(i as real, f.deltaU)), Scale(j as real, f.deltaV))
  }

  /** `__pixel_sample_square` for the drawn offsets `px`, `py`. */
  function SampleOffset(f: Frame, px: real, py: real): (o: Vec3)
    ensures px == 0.0 && py == 0.0 ==> o == Zero
  {
    Add(Scale(px, f.deltaU), Scale(py, f.deltaV))
  }

  /** `get_ray(i, j)` with the offsets `__pixel_sample_square` drew: the ray
      leaves the camera centre and reaches the sampled point at `t = 1`. */
  function GetRay(f: Frame, i: int, j: int, px: real, py: real): (r: Ray)
    ensures r.orig == f.center
    ensures r.At(1.0) == Add(PixelCenter(f, i, j), SampleOffset(f, px, py))
  {
    var pixelSample := Add(PixelCenter(f, i, j), SampleOffset(f, px, py));
    AddSubInverse(pixelSample, f.center);
    Ray(f.center, Sub(pixelSample, f.center))
  }

  // ---------------------------------------------------------------------------
  // The camera object

  /** A camera: public settings assigned by the scene, private frame fields
      assigned by `Initialize`. */
  class Camera {
    var imageWidth: int
    var aspectRatio: real
    var samplesPerPixel: int
    var maxDepth: int
    var vfov: real
    var lookfrom: Vec3
    var lookat: Vec3
    var vup: Vec3

    var imageHeight: int
    var center: Vec3
    var pixel00: Vec3
    var deltaU: Vec3
    var deltaV: Vec3
    var u: Vec3
    var v: Vec3
    var w: Vec3

    function CurrentSettings(): Settings
      reads this
    {
      Settings(imageWidth, aspectRatio, samplesPerPixel, maxDepth, vfov, lookfrom, lookat, vup)
    }

    function CurrentFrame(): Frame
      reads this
    {
      Frame(imageHeight, center, pixel00, deltaU, deltaV, u, v, w)
    }

    /** `Camera()`: the class-level defaults. */
    constructor ()
      ensures CurrentSettings() == DefaultSettings
      ensures CurrentFrame() == Unset
    {
      imageWidth, aspectRatio, samplesPerPixel, maxDepth := 100, 1.0, 10, 10;
      vfov, lookfrom, lookat, vup := 90.0, Vec3(0.0, 0.0, -1.0), Zero, Vec3(0.0, 1.0, 0.0);
      imageHeight, center, pixel00, deltaU, deltaV, u, v, w := 0, Zero, Zero, Zero, Zero, Zero, Zero, Zero;
    }

    /** `__initialize()`: assigns the private fields in order, stopping at the
        first division by zero. */
    method Initialize(sqrt: real -> real, tanHalf: real -> real) returns (raised: Option<PyError>)
      modifies this
      ensures CurrentSettings() == old(CurrentSettings())
      ensures (CurrentFrame(), raised) == Initialized(old(CurrentSettings()), old(CurrentFrame()), sqrt, tanHalf)
    {
      imageHeight := imageWidth;
      center := lookfrom;
      if imageWidth == 0 {
        return Some(ZeroDivisionError);
      }
      InitializedRestarts(old(CurrentSettings()), old(CurrentFrame()), sqrt, tanHalf);
      raised := PlaceBasis(sqrt, tanHalf);
    }

    /** The part of `__initialize` after the height and centre: the basis
        vectors, then the viewport. */
    method PlaceBasis(sqrt: real -> real, tanHalf: real -> real) returns (raised: Option<PyError>)
      requires imageWidth != 0 && imageHeight == imageWidth && center == lookfrom
      modifies this
      ensures CurrentSettings() == old(CurrentSettings())
      ensures (CurrentFrame(), raised) == Initialized(old(CurrentSettings()), old(CurrentFrame()), sqrt, tanHalf)
    {
      var unitW := UnitVector(sqrt, Sub(lookfrom, lookat));
      if unitW.Err? {
        return Some(unitW.error);
      }
      w := unitW.value;
      var unitU := UnitVector(sqrt, Cross(vup, w));
      if unitU.Err? {
        return Some(unitU.error);
      }
      InitializedPlaces(old(CurrentSettings()), old(CurrentFrame()), sqrt, tanHalf, w, unitU.value);
      SetViewport(sqrt, tanHalf, unitU.value);
      return None;
    }

    /** The assignments of `__initialize` after `u`: the viewport, its pixel
        spacing, the first pixel's centre, `u` and `v`. */
    method SetViewport(sqrt: real -> real, tanHalf: real -> real, basisU: Vec3)
      requires imageWidth != 0 && imageHeight == imageWidth && center == lookfrom
      modifies this
      ensures CurrentSettings() == old(CurrentSettings()) && w == old(w)
      ensures CurrentFrame() == Placed(CurrentSettings(), sqrt, tanHalf, w, basisU)
    {
      var f := Placed(CurrentSettings(), sqrt, tanHalf, w, basisU);
      pixel00, deltaU, deltaV, u, v := f.pixel00, f.deltaU, f.deltaV, f.u, f.v;
    }
  }

  // ---------------------------------------------------------------------------
  // __ray_color

  /** The interval every world hit is asked about: `Interval(0.001, inf)`. */
  const HitRange: Interval := Interval(Finite(0.001), PosInf)

  /** A fresh `HitRecord()`: every field None. */
  const NoRecord: Fields<Material> := Fields(None, None, None, None, None)

  /** How the members of a world answer `hit` for a given ray: the world's
      members are of any type `O` that has a `hit` routine. */
  type HitsFor<!O> = Ray -> (O, Interval) -> Effect<Material>

  /** Spheres and cubes answer through their own intersection routines. */
  function ShapesHit(sqrt: real -> real): HitsFor<Hittable<Material>>
  {
    r => ShapeHit(r, sqrt)
  }

  /** `world.hit(r, Interval(0.001, inf), rec)` on a fresh record. */
  function WorldHit<O>(world: seq<O>, hitsFor: HitsFor<O>, r: Ray): (s: ScanState<Material>)
    ensures s.hitAnything ==> Complete(s.rec)
    ensures |world| == 0 ==> !s.hitAnything && s.raised.None?
  {
    ScanHitFillsRecord(world, |world|, hitsFor(r), HitRange, NoRecord);
    Scan(world, |world|, hitsFor(r), HitRange, NoRecord)
  }

  /** `t = 0.5 * (unit_direction.y() + 1.0)`. */
  function SkyWeight(unitDirection: Vec3): (t: real)
    ensures -1.0 <= unitDirection.y <= 1.0 ==> 0.0 <= t <= 1.0
    ensures unitDirection.y == -1.0 ==> t == 0.0
    ensures unitDirection.y == 1.0 ==> t == 1.0
  {
    0.5 * (unitDirection.y + 1.0)
  }

  /** `(1.0 - t) * Vec3(1, 1, 1) + t * Vec3(0.5, 0.7, 1.0)`. */
  function Blend(t: real): (c: Vec3)
    ensures c.z == 1.0
    ensures t == 0.0 ==> c == Vec3(1.0, 1.0, 1.0)
    ensures t == 1.0 ==> c == Vec3(0.5, 0.7, 1.0)
  {
    var c := Add(Scale(1.0 - t, Vec3(1.0, 1.0, 1.0)), Scale(t, Vec3(0.5, 0.7, 1.0)));
    assert c == Vec3(1.0 - 0.5 * t, 1.0 - 0.3 * t, 1.0);
    c
  }

  /** The background a ray sees when it hits nothing. */
  function Sky(sqrt: real -> real, r: Ray): (c: Result<Vec3>)
    ensures c.Err? <==> UnitVector(sqrt, r.dir).Err?
  {
    match UnitVector(sqrt, r.dir)
    case Err(e) => Err(e)
    case Ok(unitDirection) => Ok(Blend(SkyWeight(unitDirection)))
  }

  /** `__ray_color(r, depth, world)`. `draw(d)` is the random vector a scatter
      at remaining depth `d` uses. Only a light has `emit`, so a light never
      scatters; a scatter without a ray falls through to the sky. */
  function RayColor<O>(sqrt: real -> real, world: seq<O>, hitsFor: HitsFor<O>, r: Ray, depth: int,
                       draw: int -> Vec3): (c: Result<Vec3>)
    ensures depth <= 0 ==> c == Ok(Zero)
    decreases depth
  {
    if depth <= 0 then Ok(Zero)
    else
      var s := WorldHit(world, hitsFor, r);
      if s.raised.Some? then Err(s.raised.value)
      else if !s.hitAnything then Sky(sqrt, r)
      else
        var rec := Held(s.rec);
        if rec.material.DiffuseLight? then Ok(rec.material.emit)
        else
          match Scatter(sqrt, rec.material, r, rec, draw(depth))
          case Err(e) => Err(e)
          case Ok(scattered) =>
            if scattered.ray.None? then Sky(sqrt, r)
            else
              match RayColor(sqrt, world, hitsFor, scattered.ray.value, depth - 1, draw)
              case Err(e) => Err(e)
              case Ok(incoming) => Ok(Mul(scattered.attenuation, incoming))
  }

  // ---------------------------------------------------------------------------
  // Properties of the frame

  /** The image is square whatever `aspect_ratio` says, so the viewport is too. */
  lemma ViewportIsSquare(viewportHeight: real, width: int)
    requires width != 0
    ensures ViewportWidth(viewportHeight, width, width) == viewportHeight
  {
    assert width as real / width as real == 1.0;
  }

  /** `__initialize` raises exactly for a zero width, a camera looking at its
      own position, or an up vector parallel to the viewing direction. */
  lemma InitializeRaises(s: Settings, before: Frame, sqrt: real -> real, tanHalf: real -> real)
    requires IsSqrt(sqrt)
    ensures Initialized(s, before, sqrt, tanHalf).1.Some?
            <==> s.imageWidth == 0 || s.lookfrom == s.lookat
                 || (UnitVector(sqrt, Sub(s.lookfrom, s.lookat)).Ok?
                     && Cross(s.vup, UnitVector(sqrt, Sub(s.lookfrom, s.lookat)).value) == Zero)
  {
    InitializedRaised(s, before, sqrt, tanHalf);
    BasisFails(s, sqrt);
  }

  /** The two `unit_vector` calls of `__initialize` raise exactly on a
      zero vector. */
  lemma BasisFails(s: Settings, sqrt: real -> real)
    requires IsSqrt(sqrt)
    ensures UnitVector(sqrt, Sub(s.lookfrom, s.lookat)).Err? <==> s.lookfrom == s.lookat
    ensures UnitVector(sqrt, Sub(s.lookfrom, s.lookat)).Ok? ==>
              (UnitVector(sqrt, Cross(s.vup, UnitVector(sqrt, Sub(s.lookfrom, s.lookat)).value)).Err?
               <==> Cross(s.vup, UnitVector(sqrt, Sub(s.lookfrom, s.lookat)).value) == Zero)
  {
    var toCamera := Sub(s.lookfrom, s.lookat);
    UnitVectorFails(sqrt, toCamera);
    SubZero(s.lookfrom, s.lookat);
    if UnitVector(sqrt, toCamera).Ok? {
      UnitVectorFails(sqrt, Cross(s.vup, UnitVector(sqrt, toCamera).value));
    }
  }

  /** Where `__initialize` stops, independent of the viewport it computes. */
  lemma InitializedRaised(s: Settings, before: Frame, sqrt: real -> real, tanHalf: real -> real)
    ensures Initialized(s, before, sqrt, tanHalf).1.Some?
            <==> s.imageWidth == 0 || UnitVector(sqrt, Sub(s.lookfrom, s.lookat)).Err?
                 || UnitVector(sqrt, Cross(s.vup, UnitVector(sqrt, Sub(s.lookfrom, s.lookat)).value)).Err?
  {
  }

  /** `unit_vector` raises exactly on the zero vector. */
  lemma UnitVectorFails(sqrt: real -> real, v: Vec3)
    requires IsSqrt(sqrt)
    ensures UnitVector(sqrt, v).Err? <==> v == Zero
  {
    UnitVectorIsUnit(sqrt, v);
    LengthSquaredZero(v);
  }

  /** After a successful `__initialize`, `u`, `v`, `w` are an orthonormal basis. */
  lemma InitializedBasis(s: Settings, before: Frame, sqrt: real -> real, tanHalf: real -> real)
    requires IsSqrt(sqrt)
    requires Initialized(s, before, sqrt, tanHalf).1.None?
    ensures var f := Initialized(s, before, sqrt, tanHalf).0;
      && LengthSquared(f.w) == 1.0 && LengthSquared(f.u) == 1.0 && LengthSquared(f.v) == 1.0
      && Dot(f.u, f.w) == 0.0 && Dot(f.v, f.w) == 0.0 && Dot(f.v, f.u) == 0.0
  {
    var f := Initialized(s, before, sqrt, tanHalf).0;
    var toCamera := Sub(s.lookfrom, s.lookat);
    UnitVectorIsUnit(sqrt, toCamera);
    var w := UnitVector(sqrt, toCamera).value;
    var c := Cross(s.vup, w);
    UnitVectorIsUnit(sqrt, c);
    var u := UnitVector(sqrt, c).value;
    assert f.w == w && f.u == u && f.v == Cross(w, u);
    UnitOfPerpendicular(sqrt, c, w);
    LagrangeIdentity(w, u);
    DotSymmetric(w, u);
    assert LengthSquared(w) * LengthSquared(u) == 1.0;
  }

  /** Normalising a vector perpendicular to `n` keeps it perpendicular. */
  lemma UnitOfPerpendicular(sqrt: real -> real, c: Vec3, n: Vec3)
    requires UnitVector(sqrt, c).Ok?
    requires Dot(c, n) == 0.0
    ensures Dot(UnitVector(sqrt, c).value, n) == 0.0
  {
    var len := Length(sqrt, c);
    var d := UnitVector(sqrt, c).value;
    assert Scale(len, d) == c;
    DotScale(len, d, n);
    assert len * Dot(d, n) == 0.0;
  }

  /** Neighbouring pixel centres are one pixel step apart. */
  lemma NeighbourPixels(f: Frame, i: int, j: int)
    ensures PixelCenter(f, i + 1, j) == Add(PixelCenter(f, i, j), f.deltaU)
    ensures PixelCenter(f, i, j + 1) == Add(PixelCenter(f, i, j), f.deltaV)
  {
    ScaleSuccessor(i as real, f.deltaU);
    ScaleSuccessor(j as real, f.deltaV);
  }

  /** A sample with offsets `px`, `py` lies at the fractional pixel
      position `(i + px, j + py)` of the viewport grid. */
  lemma SampleAtFractionalPixel(f: Frame, i: int, j: int, px: real, py: real)
    ensures Add(PixelCenter(f, i, j), SampleOffset(f, px, py))
            == Add(Add(f.pixel00, Scale(i as real + px, f.deltaU)), Scale(j as real + py, f.deltaV))
  {
    ScaleSplits(i as real, px, f.deltaU);
    ScaleSplits(j as real, py, f.deltaV);
  }

  lemma ScaleSuccessor(a: real, d: Vec3)
    ensures Scale(a + 1.0, d) == Add(Scale(a, d), d)
  {
  }

  // ---------------------------------------------------------------------------
  // Properties of the ray colour

  /** The sky is exactly 1 in blue, and lies between sky blue and white. */
  lemma SkyBounds(sqrt: real -> real, r: Ray)
    requires IsSqrt(sqrt)
    requires r.dir != Zero
    ensures Sky(sqrt, r).Ok?
    ensures var c := Sky(sqrt, r).value;
      c.z == 1.0 && 0.5 <= c.x <= 1.0 && 0.7 <= c.y <= 1.0
  {
    UnitVectorIsUnit(sqrt, r.dir);
    LengthSquaredZero(r.dir);
    UnitComponentsBounded(UnitVector(sqrt, r.dir).value);
  }

  /** Every component lies in [0, 1]. */
  predicate InUnitCube(c: Vec3)
  {
    0.0 <= c.x <= 1.0 && 0.0 <= c.y <= 1.0 && 0.0 <= c.z <= 1.0
  }

  /** A material that reflects at most the light it receives and emits at most white. */
  predicate Dim(m: Material)
  {
    match m
    case Lambertian(albedo) => InUnitCube(albedo)
    case Metal(albedo, _) => InUnitCube(albedo)
    case Dielectric(_) => true
    case DiffuseLight(emit) => InUnitCube(emit)
  }

  /** Every member reports hits in its own material. */
  ghost predicate ReportsOwnMaterial<O(!new)>(hitsFor: HitsFor<O>, materialOf: O -> Material)
  {
    forall r, o, iv :: hitsFor(r)(o, iv).Found? ==> hitsFor(r)(o, iv).hit.material == materialOf(o)
  }

  /** In a world of dim materials every ray colour lies in [0, 1]: each
      bounce multiplies by an attenuation in [0, 1], and the sky and the
      lights are within it. */
  lemma {:induction false} RayColorBounded<O(!new)>(sqrt: real -> real, world: seq<O>, hitsFor: HitsFor<O>,
                                                    materialOf: O -> Material, r: Ray, depth: int,
                                                    draw: int -> Vec3)
    requires IsSqrt(sqrt)
    requires ReportsOwnMaterial(hitsFor, materialOf)
    requires forall j :: 0 <= j < |world| ==> Dim(materialOf(world[j]))
    requires RayColor(sqrt, world, hitsFor, r, depth, draw).Ok?
    ensures InUnitCube(RayColor(sqrt, world, hitsFor, r, depth, draw).value)
    decreases depth
  {
    if depth > 0 {
      var s := WorldHit(world, hitsFor, r);
      if !s.hitAnything {
        SkyColorBounded(sqrt, r);
      } else {
        ScanHitMaterial(world, |world|, hitsFor(r), HitRange, NoRecord, materialOf);
        var rec := Held(s.rec);
        assert Dim(rec.material);
        if !rec.material.DiffuseLight? {
          var scattered := Scatter(sqrt, rec.material, r, rec, draw(depth)).value;
          if scattered.ray.None? {
            SkyColorBounded(sqrt, r);
          } else {
            RayColorBounded(sqrt, world, hitsFor, materialOf, scattered.ray.value, depth - 1, draw);
            var incoming := RayColor(sqrt, world, hitsFor, scattered.ray.value, depth - 1, draw).value;
            assert InUnitCube(scattered.attenuation);
            MulBounded(scattered.attenuation, incoming);
          }
        }
      }
    }
  }

  /** The same for a scene of spheres and cubes. */
  lemma SceneColorBounded(sqrt: real -> real, world: seq<Hittable<Material>>, r: Ray, depth: int,
                          draw: int -> Vec3)
    requires IsSqrt(sqrt)
    requires forall j :: 0 <= j < |world| ==> Dim(MaterialOf(world[j]))
    requires RayColor(sqrt, world, ShapesHit(sqrt), r, depth, draw).Ok?
    ensures InUnitCube(RayColor(sqrt, world, ShapesHit(sqrt), r, depth, draw).value)
  {
    forall r', o, iv | ShapesHit(sqrt)(r')(o, iv).Found?
      ensures ShapesHit(sqrt)(r')(o, iv).hit.material == MaterialOf(o)
    {
      HitEffectMaterial(o, r', iv, sqrt);
    }
    RayColorBounded(sqrt, world, ShapesHit(sqrt), MaterialOf, r, depth, draw);
  }

  lemma SkyColorBounded(sqrt: real -> real, r: Ray)
    requires IsSqrt(sqrt)
    requires Sky(sqrt, r).Ok?
    ensures InUnitCube(Sky(sqrt, r).value)
  {
    UnitVectorIsUnit(sqrt, r.dir);
    LengthSquaredZero(r.dir);
    SkyBounds(sqrt, r);
  }

  lemma MulBounded(a: Vec3, b: Vec3)
    requires InUnitCube(a) && InUnitCube(b)
    ensures InUnitCube(Mul(a, b))
  {
    ProductBounded(a.x, b.x);
    ProductBounded(a.y, b.y);
    ProductBounded(a.z, b.z);
  }

  /** In an empty world every ray with remaining depth sees the sky. */
  lemma EmptyWorldShowsSky<O>(sqrt: real -> real, hitsFor: HitsFor<O>, r: Ray, depth: int, draw: int -> Vec3)
    requires 0 < depth
    ensures RayColor(sqrt, [], hitsFor, r, depth, draw) == Sky(sqrt, r)
  {
  }

  /** A ray that reaches a light gets the light's colour, however much depth
      is left: the path ends there. */
  lemma LightEndsPath<O>(sqrt: real -> real, world: seq<O>, hitsFor: HitsFor<O>, r: Ray, depth: int,
                         depth': int, draw: int -> Vec3, draw': int -> Vec3)
    requires 0 < depth && 0 < depth'
    requires WorldHit(world, hitsFor, r).raised.None? && WorldHit(world, hitsFor, r).hitAnything
    requires WorldHit(world, hitsFor, r).rec.material.Some?
    requires WorldHit(world, hitsFor, r).rec.material.value.DiffuseLight?
    ensures RayColor(sqrt, world, hitsFor, r, depth, draw) == RayColor(sqrt, world, hitsFor, r, depth', draw')
    ensures RayColor(sqrt, world, hitsFor, r, depth, draw) == Ok(WorldHit(world, hitsFor, r).rec.material.value.emit)
  {
  }

  /** When the world scan raises, the ray colour is that exception. */
  lemma WorldRaisePropagates<O>(sqrt: real -> real, world: seq<O>, hitsFor: HitsFor<O>, r: Ray, depth: int,
                                draw: int -> Vec3)
    requires 0 < depth
    requires WorldHit(world, hitsFor, r).raised.Some?
    ensures RayColor(sqrt, world, hitsFor, r, depth, draw) == Err(WorldHit(world, hitsFor, r).raised.value)
  {
  }

  /** A ray that hits nothing sees the sky. */
  lemma MissShowsSky<O>(sqrt: real -> real, world: seq<O>, hitsFor: HitsFor<O>, r: Ray, depth: int,
                        draw: int -> Vec3)
    requires 0 < depth
    requires WorldHit(world, hitsFor, r).raised.None? && !WorldHit(world, hitsFor, r).hitAnything
    ensures RayColor(sqrt, world, hitsFor, r, depth, draw) == Sky(sqrt, r)
  {
  }

  /** When the hit material's `scatter` raises, so does the ray colour. */
  lemma ScatterErrorPropagates<O>(sqrt: real -> real, world: seq<O>, hitsFor: HitsFor<O>, r: Ray, depth: int,
                                  draw: int -> Vec3)
    requires 0 < depth
    requires WorldHit(world, hitsFor, r).raised.None? && WorldHit(world, hitsFor, r).hitAnything
    requires !Held(WorldHit(world, hitsFor, r).rec).material.DiffuseLight?
    requires Scatter(sqrt, Held(WorldHit(world, hitsFor, r).rec).material, r,
                     Held(WorldHit(world, hitsFor, r).rec), draw(depth)).Err?
    ensures RayColor(sqrt, world, hitsFor, r, depth, draw)
            == Err(Scatter(sqrt, Held(WorldHit(world, hitsFor, r).rec).material, r,
                           Held(WorldHit(world, hitsFor, r).rec), draw(depth)).error)
  {
  }

  /** A hit on a material other than a light that scatters always yields a
      ray, and the colour is the attenuation times the colour the scattered
      ray gets with one level of depth less; an exception down the path is
      the colour's exception. */
  lemma ScatterRecurses<O>(sqrt: real -> real, world: seq<O>, hitsFor: HitsFor<O>, r: Ray, depth: int,
                           draw: int -> Vec3)
    requires 0 < depth
    requires WorldHit(world, hitsFor, r).raised.None? && WorldHit(world, hitsFor, r).hitAnything
    requires !Held(WorldHit(world, hitsFor, r).rec).material.DiffuseLight?
    requires Scatter(sqrt, Held(WorldHit(world, hitsFor, r).rec).material, r,
                     Held(WorldHit(world, hitsFor, r).rec), draw(depth)).Ok?
    ensures var sc := Scatter(sqrt, Held(WorldHit(world, hitsFor, r).rec).material, r,
                              Held(WorldHit(world, hitsFor, r).rec), draw(depth)).value;
            sc.ray.Some? &&
            var here := RayColor(sqrt, world, hitsFor, r, depth, draw);
            var deeper := RayColor(sqrt, world, hitsFor, sc.ray.value, depth - 1, draw);
            (here.Ok? <==> deeper.Ok?) &&
            (deeper.Ok? ==> here.value == Mul(sc.attenuation, deeper.value)) &&
            (deeper.Err? ==> here == deeper)
  {
  }
}
