/** Rays, points along them, and the standalone ray/sphere test `hit_sphere`. */
module Rays {
  import opened Errors
  import opened Vectors

  /** A ray: its origin and its direction (set once by the constructor). */
  datatype Ray = Ray(orig: Vec3, dir: Vec3)
  {
    /** `at(t)`: the point `orig + t * dir`. */
    function At(t: real): Vec3
    {
      Add(orig, Scale(t, dir))
    }
  }

  /** `Ray(origin, direction)` with either argument possibly omitted. An omitted
      argument is replaced by `Vec3()`, which lacks its three required
      components and so raises TypeError. */
  function NewRay(origin: Option<Vec3>, direction: Option<Vec3>): (r: Result<Ray>)
    ensures r.Ok? <==> origin.Some? && direction.Some?
    ensures r.Ok? ==> r.value.orig == origin.value && r.value.dir == direction.value
    ensures r.Err? ==> r.error == TypeError
  {
    if origin.None? || direction.None? then Err(TypeError)
    else Ok(Ray(origin.value, direction.value))
  }

  /** At parameter zero the ray is at its origin. */
  lemma AtZero(r: Ray)
    ensures r.At(0.0) == r.orig
  {
  }

  /** `at` is affine in `t`: moving from t2 to t1 moves by (t1 - t2) * dir. */
  lemma AtAffine(r: Ray, t1: real, t2: real)
    ensures Sub(r.At(t1), r.At(t2)) == Scale(t1 - t2, r.dir)
  {
    assert (r.orig.x + t1 * r.dir.x) - (r.orig.x + t2 * r.dir.x) == (t1 - t2) * r.dir.x;
    assert (r.orig.y + t1 * r.dir.y) - (r.orig.y + t2 * r.dir.y) == (t1 - t2) * r.dir.y;
    assert (r.orig.z + t1 * r.dir.z) - (r.orig.z + t2 * r.dir.z) == (t1 - t2) * r.dir.z;
  }

  /** The discriminant `half_b^2 - a*c` of a quadratic `a t^2 + 2 half_b t + c`. */
  function QuarterDiscriminant(a: real, halfB: real, c: real): real
  {
    halfB * halfB - a * c
  }

  /** The discriminant of the ray/sphere quadratic, with `oc = origin - center`,
      `a = dir . dir`, `half_b = oc . dir` and `c = |oc|^2 - radius^2`. */
  function Discriminant(center: Vec3, radius: real, r: Ray): real
  {
    var oc := Sub(r.orig, center);
    QuarterDiscriminant(Dot(r.dir, r.dir), Dot(oc, r.dir), LengthSquared(oc) - radius * radius)
  }

  /** `hit_sphere`: -1.0 for a negative discriminant, otherwise the root
      `(-half_b - sqrt(d)) / a`; a zero direction makes `a` zero and the
      division raise. */
  function HitSphere(center: Vec3, radius: real, r: Ray, sqrt: real -> real): (t: Result<real>)
    ensures t.Err? ==> t.error == ZeroDivisionError && Discriminant(center, radius, r) >= 0.0
    ensures t.Ok? && t.value != -1.0 ==> Discriminant(center, radius, r) >= 0.0
  {
    NearerRoot(Dot(r.dir, r.dir), Dot(Sub(r.orig, center), r.dir), Discriminant(center, radius, r), sqrt)
  }

  /** The root choice of `hit_sphere` on the scalar coefficients: the
      sentinel for a negative discriminant, otherwise the `t` with
      `a * t == -half_b - sqrt(d)`, or the division error for `a == 0`. */
  function NearerRoot(a: real, halfB: real, d: real, sqrt: real -> real): (t: Result<real>)
    ensures d < 0.0 ==> t == Ok(-1.0)
    ensures 0.0 <= d ==> (t.Err? <==> a == 0.0)
    ensures 0.0 <= d && t.Ok? ==> a * t.value == -halfB - sqrt(d)
    ensures t.Err? ==> t.error == ZeroDivisionError
  {
    if d < 0.0 then Ok(-1.0)
    else if a == 0.0 then Err(ZeroDivisionError)
    else Ok((-halfB - sqrt(d)) / a)
  }

  /** The quadratic whose roots are where the ray meets the sphere's surface:
      `|at(t) - center|^2 - radius^2`. */
  function SphereGap(center: Vec3, radius: real, r: Ray, t: real): real
  {
    LengthSquared(Sub(r.At(t), center)) - radius * radius
  }

  /** A negative discriminant yields the sentinel -1.0. */
  lemma HitSphereMisses(center: Vec3, radius: real, r: Ray, sqrt: real -> real)
    requires Discriminant(center, radius, r) < 0.0
    ensures HitSphere(center, radius, r, sqrt) == Ok(-1.0)
  {
  }

  /** `hit_sphere` raises exactly for a ray without direction (whose
      discriminant is then zero, so the division is reached). */
  lemma HitSphereRaises(center: Vec3, radius: real, r: Ray, sqrt: real -> real)
    ensures HitSphere(center, radius, r, sqrt).Err? <==> r.dir == Zero
  {
    if r.dir == Zero {
      ZeroDirectionRaises(center, radius, r.orig, sqrt);
      assert r == Ray(r.orig, Zero);
    } else {
      LengthSquaredZero(r.dir);
    }
  }

  lemma ZeroDirectionRaises(center: Vec3, radius: real, origin: Vec3, sqrt: real -> real)
    ensures HitSphere(center, radius, Ray(origin, Zero), sqrt).Err?
  {
    ZeroDirectionDiscriminant(center, radius, origin);
  }

  /** A ray with no direction has a zero discriminant. */
  lemma ZeroDirectionDiscriminant(center: Vec3, radius: real, origin: Vec3)
    ensures Discriminant(center, radius, Ray(origin, Zero)) == 0.0
  {
  }

  /** The point at the returned parameter lies on the sphere, and the other
      root is not smaller: `hit_sphere` returns the nearer intersection. */
  lemma HitSphereIsNearerRoot(center: Vec3, radius: real, r: Ray, sqrt: real -> real)
    requires IsSqrt(sqrt)
    requires Discriminant(center, radius, r) >= 0.0 && r.dir != Zero
    ensures HitSphere(center, radius, r, sqrt).Ok?
    ensures SphereGap(center, radius, r, HitSphere(center, radius, r, sqrt).value) == 0.0
    ensures HitSphere(center, radius, r, sqrt).value
              <= (-Dot(Sub(r.orig, center), r.dir) + sqrt(Discriminant(center, radius, r))) / Dot(r.dir, r.dir)
  {
    LengthSquaredZero(r.dir);
    var oc := Sub(r.orig, center);
    var a, hb, c := Dot(r.dir, r.dir), Dot(oc, r.dir), LengthSquared(oc) - radius * radius;
    assert 0.0 <= a by { SquareNonNegative(r.dir.x); SquareNonNegative(r.dir.y); SquareNonNegative(r.dir.z); }
    assert Discriminant(center, radius, r) == QuarterDiscriminant(a, hb, c);
    NearerRootSolves(a, hb, c, sqrt);
    GapAsQuadratic(center, radius, r, NearerRoot(a, hb, QuarterDiscriminant(a, hb, c), sqrt).value, a, hb, c);
  }

  /** On the coefficients: for a positive `a` and a non-negative
      discriminant, the nearer root solves the quadratic and is not above
      the other root. */
  lemma NearerRootSolves(a: real, hb: real, c: real, sqrt: real -> real)
    requires IsSqrt(sqrt)
    requires 0.0 < a && QuarterDiscriminant(a, hb, c) >= 0.0
    ensures NearerRoot(a, hb, QuarterDiscriminant(a, hb, c), sqrt).Ok?
    ensures var t := NearerRoot(a, hb, QuarterDiscriminant(a, hb, c), sqrt).value;
            a * t * t + 2.0 * hb * t + c == 0.0
            && t <= (-hb + sqrt(QuarterDiscriminant(a, hb, c))) / a
  {
    var d := QuarterDiscriminant(a, hb, c);
    var s := sqrt(d);
    assert 0.0 <= s && s * s == d;
    QuadraticRoot(a, hb, c, s, (-hb - s) / a);
    SmallerRoot(a, hb, s);
  }

  /** `t = (-hb - s)/a` with `s^2 = hb^2 - a*c` solves `a t^2 + 2 hb t + c = 0`. */
  lemma QuadraticRoot(a: real, hb: real, c: real, s: real, t: real)
    requires a != 0.0 && s * s == hb * hb - a * c && t == (-hb - s) / a
    ensures a * t * t + 2.0 * hb * t + c == 0.0
  {
    assert a * t == -hb - s;
    calc {
      a * (a * t * t + 2.0 * hb * t + c);
      (a * t) * (a * t) + 2.0 * hb * (a * t) + a * c;
      (-hb - s) * (-hb - s) + 2.0 * hb * (-hb - s) + a * c;
      s * s - hb * hb + a * c;
      0.0;
    }
    MulZero(a, a * t * t + 2.0 * hb * t + c);
  }

  lemma MulZero(a: real, b: real)
    requires a != 0.0 && a * b == 0.0
    ensures b == 0.0
  {
  }

  /** The gap `|at(t) - center|^2 - radius^2` is the quadratic in `t`. */
  lemma GapIsQuadratic(center: Vec3, radius: real, r: Ray, t: real)
    ensures SphereGap(center, radius, r, t)
            == Dot(r.dir, r.dir) * t * t + 2.0 * Dot(Sub(r.orig, center), r.dir) * t
               + (LengthSquared(Sub(r.orig, center)) - radius * radius)
  {
    var oc := Sub(r.orig, center);
    assert Sub(r.At(t), center) == Add(oc, Scale(t, r.dir));
  }

  /** The same, over named coefficients. */
  lemma GapAsQuadratic(center: Vec3, radius: real, r: Ray, t: real, a: real, hb: real, c: real)
    requires a == Dot(r.dir, r.dir) && hb == Dot(Sub(r.orig, center), r.dir)
    requires c == LengthSquared(Sub(r.orig, center)) - radius * radius
    ensures SphereGap(center, radius, r, t) == a * t * t + 2.0 * hb * t + c
  {
    GapIsQuadratic(center, radius, r, t);
  }

  /** With a positive leading coefficient the minus-root is the smaller one. */
  lemma SmallerRoot(a: real, hb: real, s: real)
    requires 0.0 < a && 0.0 <= s
    ensures (-hb - s) / a <= (-hb + s) / a
  {
    assert (-hb + s) / a - (-hb - s) / a == (2.0 * s) / a;
    assert 0.0 <= (2.0 * s) / a;
  }
}
