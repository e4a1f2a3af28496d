/** The older top-level `Material.py`: Lambertian, Metal and Dielectric with
    the same scatter rules as `General/Material.py`, and no light. */
module LegacyMaterials {
  import opened Errors
  import opened Vectors
  import opened Rays
  import opened HittableObject
  import Materials

  /** The three materials of the older file. */
  datatype LegacyMaterial =
    | Lambertian(albedo: Vec3)
    | Metal(albedo: Vec3, fuzz: real)
    | Dielectric(ir: real)

  /** `Metal(albedo, fuzz)` with the fuzz capped at 1. */
  function NewMetal(albedo: Vec3, fuzz: real): (m: LegacyMaterial)
    ensures m.Metal? && m.albedo == albedo
    ensures m.fuzz <= 1.0
    ensures fuzz < 1.0 ==> m.fuzz == fuzz
    ensures 1.0 <= fuzz ==> m.fuzz == 1.0
  {
    Metal(albedo, if fuzz < 1.0 then fuzz else 1.0)
  }

  /** `scatter(r_in, rec)` of the older file. */
  function Scatter<M>(sqrt: real -> real, m: LegacyMaterial, rIn: Ray, rec: Hit<M>, sample: Vec3)
    : (res: Result<Materials.Scattered>)
    ensures res.Ok? ==> res.value.ray.Some? && res.value.ray.value.orig == rec.p
    ensures m.Lambertian? ==> res.Ok?
    ensures res.Ok? && !m.Dielectric? ==> res.value.attenuation == m.albedo
    ensures res.Ok? && m.Dielectric? ==> res.value.attenuation == Vec3(1.0, 1.0, 1.0)
  {
    match m
    case Lambertian(albedo) =>
      var scatterDirection := Add(rec.normal, sample);
      var direction := if NearZero(scatterDirection) then rec.normal else scatterDirection;
      Ok(Materials.Scattered(Some(Ray(rec.p, direction)), albedo))
    case Metal(albedo, fuzz) =>
      (match UnitVector(sqrt, rIn.dir)
       case Err(e) => Err(e)
       case Ok(unitDirection) =>
         var reflected := Reflect(unitDirection, rec.normal);
         Ok(Materials.Scattered(Some(Ray(rec.p, Add(reflected, Scale(fuzz, sample)))), albedo)))
    case Dielectric(ir) =>
      if rec.frontFace && ir == 0.0 then Err(ZeroDivisionError)
      else
        var ratio := Materials.RefractionRatio(ir, rec.frontFace);
        match UnitVector(sqrt, rIn.dir)
        case Err(e) => Err(e)
        case Ok(unitDirection) =>
          if Materials.SinSquared(unitDirection, rec.normal) < 0.0 then Err(ValueError)
          else
            var direction := if Materials.CannotRefract(sqrt, unitDirection, rec.normal, ratio)
                             then Reflect(unitDirection, rec.normal)
                             else Refract(sqrt, unitDirection, rec.normal, ratio);
            Ok(Materials.Scattered(Some(Ray(rec.p, direction)), Vec3(1.0, 1.0, 1.0)))
  }

  /** The same material in `General/Material.py`. */
  function Embed(m: LegacyMaterial): (e: Materials.Material)
    ensures !e.DiffuseLight?
  {
    match m
    case Lambertian(albedo) => Materials.Lambertian(albedo)
    case Metal(albedo, fuzz) => Materials.Metal(albedo, fuzz)
    case Dielectric(ir) => Materials.Dielectric(ir)
  }

  /** The older file's constructors and `scatter` agree with the newer ones
      on every input: the two files differ only in the newer one's light. */
  lemma LegacyAgrees<M>(sqrt: real -> real, m: LegacyMaterial, albedo: Vec3, fuzz: real, rIn: Ray,
                        rec: Hit<M>, sample: Vec3)
    ensures Embed(NewMetal(albedo, fuzz)) == Materials.NewMetal(albedo, fuzz)
    ensures Scatter(sqrt, m, rIn, rec, sample) == Materials.Scatter(sqrt, Embed(m), rIn, rec, sample)
  {
  }
}
