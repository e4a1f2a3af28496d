/** The four materials of `General/Material.py` and how each scatters an
    incoming ray at a hit. The random unit vector a scatter draws is the
    parameter `sample`; `sqrt` is the square-root parameter of `Vectors`. */
module Materials {
  import opened Errors
  import opened Vectors
  import opened Rays
  import opened HittableObject

  /** A material and the configuration its constructor stores. */
  datatype Material =
    | Lambertian(albedo: Vec3)
    | Metal(albedo: Vec3, fuzz: real)
    | Dielectric(ir: real)
    | DiffuseLight(emit: Vec3)

  /** What `scatter` returns: the scattered ray (None for a light) and the
      attenuation or emitted colour. */
  datatype Scattered = Scattered(ray: Option<Ray>, attenuation: Vec3)

  /** `Metal(albedo, fuzz)`: a fuzz of 1 or more is stored as 1; there is no
      lower clamp. */
  function NewMetal(albedo: Vec3, fuzz: real): (m: Material)
    ensures m.Metal? && m.albedo == albedo
    ensures m.fuzz <= 1.0
    ensures fuzz < 1.0 ==> m.fuzz == fuzz
    ensures 1.0 <= fuzz ==> m.fuzz == 1.0
  {
    Metal(albedo, if fuzz < 1.0 then fuzz else 1.0)
  }

  /** `DiffuseLight(emit, scale_factor=1.0)`: stores the scaled emission. */
  function NewDiffuseLight(emit: Vec3, scaleFactor: Option<real>): (m: Material)
    ensures m.DiffuseLight?
    ensures scaleFactor.None? ==> m.emit == emit
    ensures scaleFactor.Some? ==> m.emit.x == emit.x * scaleFactor.value
                                  && m.emit.y == emit.y * scaleFactor.value
                                  && m.emit.z == emit.z * scaleFactor.value
  {
    var s := if scaleFactor.Some? then scaleFactor.value else 1.0;
    DiffuseLight(Scale(s, emit))
  }

  /** `scatter(r_in, rec)`, dispatched on the material. */
  function Scatter<M>(sqrt: real -> real, m: Material, rIn: Ray, rec: Hit<M>, sample: Vec3)
    : (res: Result<Scattered>)
    ensures m.DiffuseLight? <==> res.Ok? && res.value.ray.None?
    ensures res.Ok? && res.value.ray.Some? ==> res.value.ray.value.orig == rec.p
    ensures m.Lambertian? ==> res.Ok?
    ensures res.Ok? && (m.Lambertian? || m.Metal?) ==> res.value.attenuation == m.albedo
    ensures res.Ok? && m.Dielectric? ==> res.value.attenuation == Vec3(1.0, 1.0, 1.0)
    ensures res.Ok? && m.DiffuseLight? ==> res.value.attenuation == m.emit
  {
    match m
    case Lambertian(albedo) => Ok(LambertianScatter(albedo, rec, sample))
    case Metal(albedo, fuzz) => MetalScatter(sqrt, albedo, fuzz, rIn, rec, sample)
    case Dielectric(ir) => DielectricScatter(sqrt, ir, rIn, rec)
    case DiffuseLight(emit) => Ok(Scattered(None, emit))
  }

  /** Lambertian: from the hit point along `normal + sample`, or along the
      normal itself when that sum is near zero; attenuation is the albedo. */
  function LambertianScatter<M>(albedo: Vec3, rec: Hit<M>, sample: Vec3): (s: Scattered)
    ensures s.ray.Some? && s.ray.value.orig == rec.p && s.attenuation == albedo
    ensures !NearZero(Add(rec.normal, sample)) ==> s.ray.value.dir == Add(rec.normal, sample)
    ensures NearZero(Add(rec.normal, sample)) ==> s.ray.value.dir == rec.normal
  {
    var scatterDirection := Add(rec.normal, sample);
    var direction := if NearZero(scatterDirection) then rec.normal else scatterDirection;
    Scattered(Some(Ray(rec.p, direction)), albedo)
  }

  /** Metal: the mirror reflection of the unit incoming direction, pushed by
      `fuzz * sample`; a zero incoming direction has no unit vector and raises. */
  function MetalScatter<M>(sqrt: real -> real, albedo: Vec3, fuzz: real, rIn: Ray, rec: Hit<M>,
                        sample: Vec3): (s: Result<Scattered>)
    ensures s.Err? <==> UnitVector(sqrt, rIn.dir).Err?
    ensures s.Ok? ==> s.value.ray.Some? && s.value.ray.value.orig == rec.p && s.value.attenuation == albedo
    ensures s.Ok? ==> Sub(s.value.ray.value.dir, Scale(fuzz, sample))
                      == Reflect(UnitVector(sqrt, rIn.dir).value, rec.normal)
  {
    match UnitVector(sqrt, rIn.dir)
    case Err(e) => Err(e)
    case Ok(unitDirection) =>
      var reflected := Reflect(unitDirection, rec.normal);
      AddSubInverse(reflected, Scale(fuzz, sample));
      Ok(Scattered(Some(Ray(rec.p, Add(reflected, Scale(fuzz, sample)))), albedo))
  }

  /** `1.0 / ir` on a front face, `ir` on a back face. */
  function RefractionRatio(ir: real, frontFace: bool): (ratio: real)
    requires frontFace ==> ir != 0.0
    ensures frontFace ==> ratio * ir == 1.0
    ensures !frontFace ==> ratio == ir
  {
    if frontFace then 1.0 / ir else ir
  }

  /** `min(dot(-unit_direction, normal), 1.0)`. */
  function CosTheta(unitDirection: Vec3, normal: Vec3): (c: real)
    ensures c <= 1.0
    ensures c == Dot(Neg(unitDirection), normal) || c == 1.0
  {
    Min(Dot(Neg(unitDirection), normal), 1.0)
  }

  /** `1 - cos_theta^2`, whose square root is `sin_theta`. */
  function SinSquared(unitDirection: Vec3, normal: Vec3): (s: real)
    ensures s <= 1.0
    ensures s < 0.0 <==> Dot(unitDirection, normal) > 1.0
  {
    var c := CosTheta(unitDirection, normal);
    SquareBelowOne(c);
    1.0 - c * c
  }

  /** A cosine clamped at 1 squares to at most 1 unless it is below -1. */
  lemma SquareBelowOne(c: real)
    ensures 0.0 <= c * c
    ensures c < -1.0 ==> c * c > 1.0
    ensures -1.0 <= c <= 1.0 ==> c * c <= 1.0
  {
    SquareNonNegative(c);
    if c < -1.0 {
      SquareAboveOne(c);
    } else if c <= 1.0 {
      UnitSquare(c);
    }
  }

  /** `refraction_ratio * sin_theta > 1.0`: Snell's law has no solution. */
  predicate CannotRefract(sqrt: real -> real, unitDirection: Vec3, normal: Vec3, ratio: real): (b: bool)
    ensures IsSqrt(sqrt) && 0.0 <= ratio <= 1.0 && 0.0 <= SinSquared(unitDirection, normal) ==> !b
  {
    RatioTimesSine(sqrt, ratio, SinSquared(unitDirection, normal));
    ratio * sqrt(SinSquared(unitDirection, normal)) > 1.0
  }

  /** A ratio in [0, 1] times the root of a number in [0, 1] is at most 1. */
  lemma RatioTimesSine(sqrt: real -> real, ratio: real, a: real)
    ensures IsSqrt(sqrt) && 0.0 <= ratio <= 1.0 && 0.0 <= a <= 1.0 ==> ratio * sqrt(a) <= 1.0
  {
    if IsSqrt(sqrt) && 0.0 <= ratio <= 1.0 && 0.0 <= a <= 1.0 {
      SqrtAtMostOne(sqrt, a);
      assert 0.0 <= sqrt(a);
      ProductBounded(ratio, sqrt(a));
    }
  }

  /** The Dielectric's outgoing direction for a unit incoming direction:
      the mirror reflection when `ratio * sin_theta > 1`, Snell refraction
      otherwise; `math.sqrt` of a negative `1 - cos_theta^2` raises. */
  function DielectricDirection(sqrt: real -> real, unitDirection: Vec3, normal: Vec3, ratio: real)
    : (d: Result<Vec3>)
    ensures d.Err? <==> SinSquared(unitDirection, normal) < 0.0
    ensures d.Err? ==> d.error == ValueError
    ensures d.Ok? && CannotRefract(sqrt, unitDirection, normal, ratio) ==>
              d.value == Reflect(unitDirection, normal)
    ensures d.Ok? && !CannotRefract(sqrt, unitDirection, normal, ratio) ==>
              d.value == Refract(sqrt, unitDirection, normal, ratio)
  {
    if SinSquared(unitDirection, normal) < 0.0 then Err(ValueError)
    else
      Ok(if CannotRefract(sqrt, unitDirection, normal, ratio) then Reflect(unitDirection, normal) else Refract(sqrt, unitDirection, normal, ratio))
  }

  /** Dielectric: attenuation (1, 1, 1) and a ray from the hit point. The
      ratio is computed first, so `ir == 0` on a front face raises before
      the unit vector is taken. */
  function DielectricScatter<M>(sqrt: real -> real, ir: real, rIn: Ray, rec: Hit<M>)
    : (s: Result<Scattered>)
    ensures rec.frontFace && ir == 0.0 ==> s == Err(ZeroDivisionError)
    ensures !(rec.frontFace && ir == 0.0) && UnitVector(sqrt, rIn.dir).Err? ==> s == Err(ZeroDivisionError)
    ensures s.Err? ==> s.error == ZeroDivisionError || s.error == ValueError
    ensures s.Ok? ==> s.value.ray.Some? && s.value.ray.value.orig == rec.p
                      && s.value.attenuation == Vec3(1.0, 1.0, 1.0)
  {
    var attenuation := Vec3(1.0, 1.0, 1.0);
    if rec.frontFace && ir == 0.0 then Err(ZeroDivisionError)
    else
      var ratio := RefractionRatio(ir, rec.frontFace);
      match UnitVector(sqrt, rIn.dir)
      case Err(e) => Err(e)
      case Ok(unitDirection) =>
        match DielectricDirection(sqrt, unitDirection, rec.normal, ratio)
        case Err(e) => Err(e)
        case Ok(direction) => Ok(Scattered(Some(Ray(rec.p, direction)), attenuation))
  }

  // ---------------------------------------------------------------------------
  // Properties

  /** A metal without fuzz scatters along the exact mirror reflection. */
  lemma MetalWithoutFuzzReflects<M>(sqrt: real -> real, albedo: Vec3, rIn: Ray, rec: Hit<M>, sample: Vec3)
    requires MetalScatter(sqrt, albedo, 0.0, rIn, rec, sample).Ok?
    ensures MetalScatter(sqrt, albedo, 0.0, rIn, rec, sample).value.ray.value.dir
            == Reflect(UnitVector(sqrt, rIn.dir).value, rec.normal)
  {
    var dir := MetalScatter(sqrt, albedo, 0.0, rIn, rec, sample).value.ray.value.dir;
    assert Scale(0.0, sample) == Zero;
    assert Sub(dir, Zero) == dir;
  }

  /** A unit vector points to the same side of a plane as the vector it came from. */
  lemma UnitVectorSameSide(sqrt: real -> real, v: Vec3, n: Vec3)
    requires IsSqrt(sqrt)
    requires UnitVector(sqrt, v).Ok?
    ensures Dot(v, n) <= 0.0 <==> Dot(UnitVector(sqrt, v).value, n) <= 0.0
  {
    var len := Length(sqrt, v);
    var u := UnitVector(sqrt, v).value;
    assert 0.0 < len;
    assert Scale(len, u) == v;
    DotScale(len, u, n);
    SignOfProduct(len, Dot(u, n));
  }

  lemma SignOfProduct(a: real, b: real)
    requires 0.0 < a
    ensures a * b <= 0.0 <==> b <= 0.0
  {
    if b > 0.0 { MulPositive(a, b); }
  }

  /** Without fuzz, a ray that arrives against a unit normal leaves on the
      normal's side: the reflection never points into the surface. */
  lemma MetalReflectsAway<M>(sqrt: real -> real, albedo: Vec3, rIn: Ray, rec: Hit<M>, sample: Vec3)
    requires IsSqrt(sqrt)
    requires MetalScatter(sqrt, albedo, 0.0, rIn, rec, sample).Ok?
    requires Dot(rec.normal, rec.normal) == 1.0 && Dot(rIn.dir, rec.normal) <= 0.0
    ensures Dot(MetalScatter(sqrt, albedo, 0.0, rIn, rec, sample).value.ray.value.dir, rec.normal) >= 0.0
  {
    var u := UnitVector(sqrt, rIn.dir).value;
    MetalWithoutFuzzReflects(sqrt, albedo, rIn, rec, sample);
    UnitVectorSameSide(sqrt, rIn.dir, rec.normal);
    ReflectNegatesNormalComponent(u, rec.normal);
  }

  /** With a unit normal, a non-zero incoming direction and a usable index,
      the Dielectric never raises: `|cos_theta| <= 1` keeps `math.sqrt`'s
      argument non-negative. */
  lemma DielectricRaisesOnlyOnBadInput<M>(sqrt: real -> real, ir: real, rIn: Ray, rec: Hit<M>)
    requires IsSqrt(sqrt)
    requires LengthSquared(rec.normal) == 1.0 && rIn.dir != Zero
    requires rec.frontFace ==> ir != 0.0
    ensures DielectricScatter(sqrt, ir, rIn, rec).Ok?
  {
    UnitVectorIsUnit(sqrt, rIn.dir);
    LengthSquaredZero(rIn.dir);
    var u := UnitVector(sqrt, rIn.dir).value;
    CosThetaBounded(u, rec.normal);
  }

  /** For unit vectors `cos_theta^2 <= 1`. */
  lemma CosThetaBounded(u: Vec3, n: Vec3)
    requires LengthSquared(u) == 1.0 && LengthSquared(n) == 1.0
    ensures 0.0 <= SinSquared(u, n) <= 1.0
  {
    assert LengthSquared(Neg(u)) == LengthSquared(u);
    UnitDotBounded(Neg(u), n);
    var c := CosTheta(u, n);
    assert -1.0 <= c <= 1.0;
    UnitSquare(c);
  }

  lemma UnitSquare(c: real)
    requires -1.0 <= c <= 1.0
    ensures 0.0 <= c * c <= 1.0
  {
    SquareNonNegative(c);
    if c >= 0.0 {
      MulNonNegative(c, 1.0 - c);
      assert c * (1.0 - c) == c - c * c;
    } else {
      MulNonNegative(-c, 1.0 + c);
      assert (-c) * (1.0 + c) == -c - c * c;
    }
  }

  /** Glass of index 1 seen from behind does not bend a ray that meets it
      against a unit normal: it leaves along the unit incoming direction. */
  lemma DielectricIndexOnePassesStraight<M>(sqrt: real -> real, rIn: Ray, rec: Hit<M>)
    requires IsSqrt(sqrt)
    requires !rec.frontFace
    requires LengthSquared(rec.normal) == 1.0 && rIn.dir != Zero && Dot(rIn.dir, rec.normal) <= 0.0
    ensures DielectricScatter(sqrt, 1.0, rIn, rec).Ok?
    ensures DielectricScatter(sqrt, 1.0, rIn, rec).value.ray.value.dir == UnitVector(sqrt, rIn.dir).value
  {
    DielectricRaisesOnlyOnBadInput(sqrt, 1.0, rIn, rec);
    UnitVectorIsUnit(sqrt, rIn.dir);
    LengthSquaredZero(rIn.dir);
    var u := UnitVector(sqrt, rIn.dir).value;
    UnitVectorSameSide(sqrt, rIn.dir, rec.normal);
    CosThetaBounded(u, rec.normal);
    assert sqrt(SinSquared(u, rec.normal)) <= 1.0 by { SqrtAtMostOne(sqrt, SinSquared(u, rec.normal)); }
    RefractIndexOne(sqrt, u, rec.normal);
  }

  lemma SqrtAtMostOne(sqrt: real -> real, a: real)
    requires IsSqrt(sqrt)
    requires 0.0 <= a <= 1.0
    ensures sqrt(a) <= 1.0
  {
    SqrtMonotone(sqrt, a, 1.0);
    SqrtUnique(sqrt, 1.0, 1.0);
  }

  /** When the Dielectric cannot refract, it mirrors: about a unit normal the
      outgoing direction has the normal component of the incoming one negated. */
  lemma DielectricMirrorsWhenTrapped(sqrt: real -> real, unitDirection: Vec3, normal: Vec3, ratio: real)
    requires Dot(normal, normal) == 1.0
    requires DielectricDirection(sqrt, unitDirection, normal, ratio).Ok?
    requires CannotRefract(sqrt, unitDirection, normal, ratio)
    ensures DielectricDirection(sqrt, unitDirection, normal, ratio).value == Reflect(unitDirection, normal)
    ensures Dot(DielectricDirection(sqrt, unitDirection, normal, ratio).value, normal) == -Dot(unitDirection, normal)
  {
    ReflectNegatesNormalComponent(unitDirection, normal);
  }

  /** When it can refract, the outgoing direction is the perpendicular part
      `ratio * (uv + cos_theta * n)` plus a non-positive multiple of the normal. */
  lemma DielectricBendsOtherwise(sqrt: real -> real, unitDirection: Vec3, normal: Vec3, ratio: real)
    requires IsSqrt(sqrt)
    requires DielectricDirection(sqrt, unitDirection, normal, ratio).Ok?
    requires !CannotRefract(sqrt, unitDirection, normal, ratio)
    ensures exists k :: k <= 0.0 && DielectricDirection(sqrt, unitDirection, normal, ratio).value
                                    == Add(RefractPerp(unitDirection, normal, ratio), Scale(k, normal))
  {
    RefractDecomposition(sqrt, unitDirection, normal, ratio);
  }
}
