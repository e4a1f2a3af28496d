/** `Sphere.hit`: the quadratic root choice and the record update. */
module Spheres {
  import opened Errors
  import opened Vectors
  import opened Intervals
  import opened Rays
  import opened HittableObject

  /** A sphere: centre, radius and material, fixed by the constructor. */
  datatype Sphere<M> = Sphere(center: Vec3, radius: real, material: M)

  /** `b * b - a * c` with `oc = origin - center`, `a = dir . dir`,
      `b = oc . dir` and `c = oc . oc - radius^2`. */
  function SphereDiscriminant<M>(s: Sphere<M>, r: Ray): real
  {
    var oc := Sub(r.orig, s.center);
    QuarterDiscriminant(Dot(r.dir, r.dir), Dot(oc, r.dir), Dot(oc, oc) - s.radius * s.radius)
  }

  /** The two candidate parameters `(-b - root) / a` and `(-b + root) / a`. */
  function NearRoot<M>(s: Sphere<M>, r: Ray, sqrt: real -> real): real
    requires Dot(r.dir, r.dir) != 0.0
  {
    (-Dot(Sub(r.orig, s.center), r.dir) - sqrt(SphereDiscriminant(s, r))) / Dot(r.dir, r.dir)
  }

  function FarRoot<M>(s: Sphere<M>, r: Ray, sqrt: real -> real): real
    requires Dot(r.dir, r.dir) != 0.0
  {
    (-Dot(Sub(r.orig, s.center), r.dir) + sqrt(SphereDiscriminant(s, r))) / Dot(r.dir, r.dir)
  }

  /** The effect of `hit(r, ray_t, rec)`. The guards for a zero `a` and a zero
      radius follow the two divisions of the source; `SphereNeverRaises` shows
      that a positive discriminant rules both out. */
  function Intersect<M>(s: Sphere<M>, r: Ray, rayT: Interval, sqrt: real -> real): (e: Effect<M>)
    ensures e.Raised? ==> e.error == ZeroDivisionError && Dot(r.dir, r.dir) == 0.0
    ensures e.Found? ==> Dot(r.dir, r.dir) != 0.0
                         && (e.hit.t == NearRoot(s, r, sqrt) || e.hit.t == FarRoot(s, r, sqrt))
  {
    if SphereDiscriminant(s, r) <= 0.0 then Miss
    else if Dot(r.dir, r.dir) == 0.0 then Raised(ZeroDivisionError)
    else
      var t1 := NearRoot(s, r, sqrt);
      var t2 := FarRoot(s, r, sqrt);
      if !rayT.Surrounds(t1) && !rayT.Surrounds(t2) then Miss
      else
        var t := if rayT.Surrounds(t1) then t1 else t2;
        var p := r.At(t);
        if s.radius == 0.0 then Scribbled(t, p, s.material, Some(ZeroDivisionError))
        else
          var outward := Div(Sub(p, s.center), s.radius);
          Found(Hit(p, FaceNormal(r.dir, outward), s.material, t, Dot(r.dir, outward) < 0.0))
  }

  /** `Sphere.hit`: writes `t`, `p` and `material`, then sets the face normal. */
  method HitSphere<M>(s: Sphere<M>, r: Ray, rayT: Interval, rec: HitRecord<M>, sqrt: real -> real)
    returns (hit: bool)
    modifies rec
    ensures Ok(hit) == Outcome(Intersect(s, r, rayT, sqrt))
    ensures rec.Current() == Apply(old(rec.Current()), Intersect(s, r, rayT, sqrt))
  {
    var discriminant := SphereDiscriminant(s, r);
    if discriminant > 0.0 {
      SphereNonDegenerate(s, r);
      var temp := NearRoot(s, r, sqrt);
      if !rayT.Surrounds(temp) {
        temp := FarRoot(s, r, sqrt);
        if !rayT.Surrounds(temp) {
          return false;
        }
      }
      rec.t := Some(temp);
      rec.p := Some(r.At(temp));
      rec.material := Some(s.material);
      var outward := Div(Sub(rec.p.value, s.center), s.radius);
      rec.SetFaceNormal(r, outward);
      return true;
    }
    return false;
  }

  /** A positive discriminant needs a non-zero direction and a non-zero
      radius, so neither division of `hit` can fail. */
  lemma SphereNonDegenerate<M>(s: Sphere<M>, r: Ray)
    requires SphereDiscriminant(s, r) > 0.0
    ensures Dot(r.dir, r.dir) != 0.0
    ensures s.radius != 0.0
  {
    SphereHasDirection(s, r);
    SphereHasRadius(s, r);
  }

  lemma SphereHasDirection<M>(s: Sphere<M>, r: Ray)
    requires SphereDiscriminant(s, r) > 0.0
    ensures Dot(r.dir, r.dir) != 0.0
  {
    if Dot(r.dir, r.dir) == 0.0 {
      LengthSquaredZero(r.dir);
      DirectionlessDiscriminant(s, r);
      assert false;
    }
  }

  lemma SphereHasRadius<M>(s: Sphere<M>, r: Ray)
    requires SphereDiscriminant(s, r) > 0.0
    ensures s.radius != 0.0
  {
    if s.radius == 0.0 {
      assert s == Sphere(s.center, 0.0, s.material);
      PointDiscriminant(s.center, s.material, r);
      assert false;
    }
  }

  /** Without a direction the discriminant is zero. */
  lemma DirectionlessDiscriminant<M>(s: Sphere<M>, r: Ray)
    requires r.dir == Zero
    ensures SphereDiscriminant(s, r) == 0.0
  {
    assert r == Ray(r.orig, Zero);
    DirectionlessOrigin(s, r.orig);
  }

  lemma DirectionlessOrigin<M>(s: Sphere<M>, origin: Vec3)
    ensures SphereDiscriminant(s, Ray(origin, Zero)) == 0.0
  {
  }

  /** For a sphere of radius zero the discriminant is never positive (Cauchy-Schwarz). */
  lemma PointDiscriminant<M>(center: Vec3, material: M, r: Ray)
    ensures SphereDiscriminant(Sphere(center, 0.0, material), r) <= 0.0
  {
    var oc := Sub(r.orig, center);
    CauchySchwarz(oc, r.dir);
    calc {
      SphereDiscriminant(Sphere(center, 0.0, material), r);
      QuarterDiscriminant(Dot(r.dir, r.dir), Dot(oc, r.dir), Dot(oc, oc) - 0.0 * 0.0);
      Dot(oc, r.dir) * Dot(oc, r.dir) - LengthSquared(r.dir) * LengthSquared(oc);
    <=
      0.0;
    }
  }

  /** The sphere never raises and never leaves a half-written record. */
  lemma SphereNeverRaises<M>(s: Sphere<M>, r: Ray, rayT: Interval, sqrt: real -> real)
    ensures Intersect(s, r, rayT, sqrt).Miss? || Intersect(s, r, rayT, sqrt).Found?
  {
    if SphereDiscriminant(s, r) > 0.0 {
      SphereNonDegenerate(s, r);
    }
  }

  /** On a hit: `t` lies strictly inside the interval, `p` is the ray at `t`,
      the material is the sphere's, and the normal is the face-corrected
      `(p - center) / radius`, which never points along the ray. */
  lemma SphereHitRecord<M>(s: Sphere<M>, r: Ray, rayT: Interval, sqrt: real -> real)
    requires Intersect(s, r, rayT, sqrt).Found?
    ensures var h := Intersect(s, r, rayT, sqrt).hit;
      && rayT.Surrounds(h.t)
      && h.p == r.At(h.t)
      && h.material == s.material
      && s.radius != 0.0
      && var outward := Div(Sub(h.p, s.center), s.radius);
         (h.normal == outward || h.normal == Neg(outward))
         && h.frontFace == (Dot(r.dir, outward) < 0.0)
         && Dot(r.dir, h.normal) <= 0.0
  {
  }

  /** The nearer root wins whenever it is strictly inside the interval; the
      farther one is used only otherwise, and a miss means both were outside
      or the discriminant was not positive. */
  lemma SphereRootChoice<M>(s: Sphere<M>, r: Ray, rayT: Interval, sqrt: real -> real)
    requires SphereDiscriminant(s, r) > 0.0
    ensures Dot(r.dir, r.dir) != 0.0
    ensures rayT.Surrounds(NearRoot(s, r, sqrt)) ==>
              Intersect(s, r, rayT, sqrt).Found? && Intersect(s, r, rayT, sqrt).hit.t == NearRoot(s, r, sqrt)
    ensures !rayT.Surrounds(NearRoot(s, r, sqrt)) && rayT.Surrounds(FarRoot(s, r, sqrt)) ==>
              Intersect(s, r, rayT, sqrt).Found? && Intersect(s, r, rayT, sqrt).hit.t == FarRoot(s, r, sqrt)
    ensures Intersect(s, r, rayT, sqrt).Miss? <==>
              !rayT.Surrounds(NearRoot(s, r, sqrt)) && !rayT.Surrounds(FarRoot(s, r, sqrt))
  {
    SphereNonDegenerate(s, r);
  }

  /** A non-positive discriminant is a miss, whatever the interval. */
  lemma SphereTangentMisses<M>(s: Sphere<M>, r: Ray, rayT: Interval, sqrt: real -> real)
    requires SphereDiscriminant(s, r) <= 0.0
    ensures Intersect(s, r, rayT, sqrt) == Miss
  {
  }

  /** With a positive `a` the near root is not above the far root. */
  lemma NearRootFirst<M>(s: Sphere<M>, r: Ray, sqrt: real -> real)
    requires IsSqrt(sqrt)
    requires SphereDiscriminant(s, r) > 0.0
    ensures Dot(r.dir, r.dir) != 0.0
    ensures NearRoot(s, r, sqrt) <= FarRoot(s, r, sqrt)
  {
    SphereNonDegenerate(s, r);
    assert 0.0 <= sqrt(SphereDiscriminant(s, r));
    LengthSquaredZero(r.dir);
    SmallerRoot(Dot(r.dir, r.dir), Dot(Sub(r.orig, s.center), r.dir), sqrt(SphereDiscriminant(s, r)));
  }

  /** The reported point lies on the sphere's surface. */
  lemma SphereHitOnSurface<M>(s: Sphere<M>, r: Ray, rayT: Interval, sqrt: real -> real)
    requires IsSqrt(sqrt)
    requires Intersect(s, r, rayT, sqrt).Found?
    ensures LengthSquared(Sub(Intersect(s, r, rayT, sqrt).hit.p, s.center)) == s.radius * s.radius
  {
    var h := Intersect(s, r, rayT, sqrt).hit;
    assert Dot(r.dir, r.dir) != 0.0 && SphereDiscriminant(s, r) > 0.0;
    assert h.p == r.At(h.t);
    if h.t == NearRoot(s, r, sqrt) {
      NearRootOnSurface(s, r, sqrt);
    } else {
      assert h.t == FarRoot(s, r, sqrt);
      FarRootOnSurface(s, r, sqrt);
    }
  }

  lemma NearRootOnSurface<M>(s: Sphere<M>, r: Ray, sqrt: real -> real)
    requires IsSqrt(sqrt)
    requires Dot(r.dir, r.dir) != 0.0 && SphereDiscriminant(s, r) > 0.0
    ensures LengthSquared(Sub(r.At(NearRoot(s, r, sqrt)), s.center)) == s.radius * s.radius
  {
    var root := sqrt(SphereDiscriminant(s, r));
    assert root * root == SphereDiscriminant(s, r);
    RootOnSurface(s, r, NearRoot(s, r, sqrt), root);
  }

  lemma FarRootOnSurface<M>(s: Sphere<M>, r: Ray, sqrt: real -> real)
    requires IsSqrt(sqrt)
    requires Dot(r.dir, r.dir) != 0.0 && SphereDiscriminant(s, r) > 0.0
    ensures LengthSquared(Sub(r.At(FarRoot(s, r, sqrt)), s.center)) == s.radius * s.radius
  {
    var root := sqrt(SphereDiscriminant(s, r));
    assert (-root) * (-root) == SphereDiscriminant(s, r) by {
      calc {
        (-root) * (-root);
        root * root;
        SphereDiscriminant(s, r);
      }
    }
    RootOnSurface(s, r, FarRoot(s, r, sqrt), -root);
  }

  /** Either root of the quadratic puts the ray point on the surface. */
  lemma RootOnSurface<M>(s: Sphere<M>, r: Ray, t: real, root: real)
    requires Dot(r.dir, r.dir) != 0.0
    requires root * root == SphereDiscriminant(s, r)
    requires t == (-Dot(Sub(r.orig, s.center), r.dir) - root) / Dot(r.dir, r.dir)
    ensures LengthSquared(Sub(r.At(t), s.center)) == s.radius * s.radius
  {
    var oc := Sub(r.orig, s.center);
    var a, hb, c := Dot(r.dir, r.dir), Dot(oc, r.dir), LengthSquared(oc) - s.radius * s.radius;
    assert SphereDiscriminant(s, r) == QuarterDiscriminant(a, hb, c);
    QuadraticRoot(a, hb, c, root, t);
    GapAsQuadratic(s.center, s.radius, r, t, a, hb, c);
    GapZeroOnSurface(s.center, s.radius, r, t);
  }

  lemma GapZeroOnSurface(center: Vec3, radius: real, r: Ray, t: real)
    requires SphereGap(center, radius, r, t) == 0.0
    ensures LengthSquared(Sub(r.At(t), center)) == radius * radius
  {
  }

  /** Shrinking the upper bound of the interval to any value still above the
      reported `t` leaves the hit unchanged. */
  lemma SphereNarrowerKeepsHit<M>(s: Sphere<M>, r: Ray, lo: ExtReal, hi: ExtReal, hi': ExtReal,
                                  sqrt: real -> real)
    requires Intersect(s, r, Interval(lo, hi), sqrt).Found?
    requires Le(hi', hi) && Lt(Finite(Intersect(s, r, Interval(lo, hi), sqrt).hit.t), hi')
    ensures Intersect(s, r, Interval(lo, hi'), sqrt) == Intersect(s, r, Interval(lo, hi), sqrt)
  {
    var h := Intersect(s, r, Interval(lo, hi), sqrt).hit;
    SphereNonDegenerate(s, r);
    var t1 := NearRoot(s, r, sqrt);
    var t2 := FarRoot(s, r, sqrt);
    if Interval(lo, hi').Surrounds(t1) {
      assert Lt(Finite(t1), hi) by { LtLeTransitive(Finite(t1), hi', hi); }
    }
  }

  /** Raising `ray_t.max` leaves a hit unchanged: a far-root hit stays one,
      since the near root, not above the far one, was already below `ray_t.min`. */
  lemma SphereWiderKeepsHit<M>(s: Sphere<M>, r: Ray, lo: ExtReal, hi': ExtReal, hi: ExtReal,
                               sqrt: real -> real)
    requires IsSqrt(sqrt)
    requires Intersect(s, r, Interval(lo, hi'), sqrt).Found?
    requires Le(hi', hi)
    ensures Intersect(s, r, Interval(lo, hi), sqrt) == Intersect(s, r, Interval(lo, hi'), sqrt)
  {
    NearRootFirst(s, r, sqrt);
    var t1 := NearRoot(s, r, sqrt);
    var t2 := FarRoot(s, r, sqrt);
    if Interval(lo, hi').Surrounds(t1) {
      assert Lt(Finite(t1), hi) by { LtLeTransitive(Finite(t1), hi', hi); }
    } else {
      assert Interval(lo, hi').Surrounds(t2);
      assert Lt(Finite(t2), hi) by { LtLeTransitive(Finite(t2), hi', hi); }
      if Lt(lo, Finite(t1)) {
        assert false;
      }
    }
  }
}
