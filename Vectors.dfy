/** Three-component vectors over the reals: the arithmetic, the dot and cross
    products, unit vectors, reflection and refraction. Floats are modelled as
    reals; `sqrt` is a parameter whose meaning `IsSqrt` states. */
module Vectors {
  import opened Errors

  /** The components of a vector (the tuple `e` of the source's object). */
  datatype Vec3 = Vec3(x: real, y: real, z: real)

  const Zero: Vec3 := Vec3(0.0, 0.0, 0.0)

  /** `sqrt` is a square root on the non-negative reals. */
  ghost predicate IsSqrt(sqrt: real -> real)
  {
    forall a :: 0.0 <= a ==> 0.0 <= sqrt(a) && sqrt(a) * sqrt(a) == a
  }

  function Abs(a: real): real
  {
    if a < 0.0 then -a else a
  }

  /** Indexing `v[i]`, for the three valid indices. */
  function Get(v: Vec3, i: int): real
    requires 0 <= i < 3
  {
    if i == 0 then v.x else if i == 1 then v.y else v.z
  }

  function Neg(v: Vec3): (r: Vec3)
    ensures Add(v, r) == Zero
  {
    Vec3(-v.x, -v.y, -v.z)
  }

  function Add(u: Vec3, v: Vec3): Vec3
  {
    Vec3(u.x + v.x, u.y + v.y, u.z + v.z)
  }

  function Sub(u: Vec3, v: Vec3): (r: Vec3)
    ensures Add(r, v) == u
  {
    Vec3(u.x - v.x, u.y - v.y, u.z - v.z)
  }

  /** `u * v` with a vector operand: the componentwise product. */
  function Mul(u: Vec3, v: Vec3): (r: Vec3)
    ensures Dot(r, Vec3(1.0, 1.0, 1.0)) == Dot(u, v)
  {
    Vec3(u.x * v.x, u.y * v.y, u.z * v.z)
  }

  /** `t * v` and `v * t` with a scalar operand. */
  function Scale(t: real, v: Vec3): Vec3
  {
    Vec3(t * v.x, t * v.y, t * v.z)
  }

  /** `v / t`; the source raises ZeroDivisionError for `t == 0`. */
  function Div(v: Vec3, t: real): (r: Vec3)
    requires t != 0.0
    ensures Scale(t, r) == v
  {
    Vec3(v.x / t, v.y / t, v.z / t)
  }

  function Dot(u: Vec3, v: Vec3): real
  {
    u.x * v.x + u.y * v.y + u.z * v.z
  }

  function LengthSquared(v: Vec3): (r: real)
    ensures 0.0 <= r
    ensures r == Dot(v, v)
  {
    SquareNonNegative(v.x);
    SquareNonNegative(v.y);
    SquareNonNegative(v.z);
    v.x * v.x + v.y * v.y + v.z * v.z
  }

  lemma SquareNonNegative(a: real)
    ensures 0.0 <= a * a
  {
    if a < 0.0 {
      assert a * a == (-a) * (-a);
    }
  }

  lemma SquareAboveOne(a: real)
    requires a > 1.0 || a < -1.0
    ensures a * a > 1.0
  {
    var b := Abs(a);
    assert b > 1.0 && a * a == b * b;
    assert b * b - 1.0 == (b - 1.0) * (b + 1.0);
  }

  lemma SquareZero(a: real)
    ensures 0.0 <= a * a
    ensures a != 0.0 ==> 0.0 < a * a
  {
    if a < 0.0 {
      assert a * a == (-a) * (-a);
      MulPositive(-a, -a);
    } else if a > 0.0 {
      MulPositive(a, a);
    }
  }

  lemma DivSquare(a: real, l: real)
    requires l != 0.0
    ensures ((a / l) * (a / l)) * (l * l) == a * a
  {
    var q := a / l;
    assert q * l == a;
    assert (q * q) * (l * l) == (q * l) * (q * l);
  }

  /** A positive number times a non-zero square is positive. */
  lemma MulSquarePositive(a: real, l: real)
    requires 0.0 < a && l != 0.0
    ensures 0.0 < a * (l * l)
  {
    SquareZero(l);
  }

  /** x * l² == l² with l non-zero forces x == 1. */
  lemma CancelSquare(x: real, l: real)
    requires l != 0.0 && x * (l * l) == l * l
    ensures x == 1.0
  {
    if x > 1.0 {
      MulSquarePositive(x - 1.0, l);
      assert false;
    } else if x < 1.0 {
      MulSquarePositive(1.0 - x, l);
      assert false;
    }
  }

  /** `length()`: the non-negative number whose square is the squared length. */
  function Length(sqrt: real -> real, v: Vec3): (l: real)
    ensures IsSqrt(sqrt) ==> 0.0 <= l && l * l == LengthSquared(v)
  {
    sqrt(LengthSquared(v))
  }

  /** Every component has magnitude strictly below 1e-8: the zero vector is
      near zero, and a vector that is has squared length below 3e-16. */
  predicate NearZero(v: Vec3): (b: bool)
    ensures v == Zero ==> b
    ensures b ==> LengthSquared(v) < 0.0000000000000003
  {
    SmallSquare(v.x);
    SmallSquare(v.y);
    SmallSquare(v.z);
    assert LengthSquared(v) == v.x * v.x + v.y * v.y + v.z * v.z;
    Abs(v.x) < 0.00000001 && Abs(v.y) < 0.00000001 && Abs(v.z) < 0.00000001
  }

  function Cross(u: Vec3, v: Vec3): (r: Vec3)
    ensures Dot(r, u) == 0.0 && Dot(r, v) == 0.0
  {
    Vec3(u.y * v.z - u.z * v.y,
         u.z * v.x - u.x * v.z,
         u.x * v.y - u.y * v.x)
  }

  /** `v / v.length()`; dividing by a zero length raises. Scaling the
      result by the length gives back `v`. */
  function UnitVector(sqrt: real -> real, v: Vec3): (r: Result<Vec3>)
    ensures r.Err? ==> r.error == ZeroDivisionError
    ensures r.Ok? ==> Scale(Length(sqrt, v), r.value) == v
  {
    var len := Length(sqrt, v);
    if len == 0.0 then Err(ZeroDivisionError) else Ok(Div(v, len))
  }

  /** The sample unit vector, flipped into the hemisphere around `normal`. */
  function RandomOnHemisphere(sample: Vec3, normal: Vec3): (r: Vec3)
    ensures r == sample || r == Neg(sample)
    ensures Dot(r, normal) >= 0.0
    ensures Dot(sample, normal) > 0.0 <==> r == sample && sample != Zero
  {
    if Dot(sample, normal) > 0.0 then sample else Neg(sample)
  }

  /** Mirror reflection of `v` about the plane with normal `n`: the change
      from `v` to its reflection is parallel to `n`. */
  function Reflect(v: Vec3, n: Vec3): (r: Vec3)
    ensures Cross(Sub(v, r), n) == Zero
  {
    Sub(v, Scale(2.0 * Dot(v, n), n))
  }

  function Min(a: real, b: real): real
  {
    if a < b then a else b
  }

  /** The component of the refracted direction perpendicular to `n`: for a
      unit `n` and `uv . n >= -1` it is orthogonal to `n`. */
  function RefractPerp(uv: Vec3, n: Vec3, etaiOverEtat: real): (r: Vec3)
    ensures Dot(n, n) == 1.0 && -1.0 <= Dot(uv, n) ==> Dot(r, n) == 0.0
  {
    var cosTheta := Min(Dot(Neg(uv), n), 1.0);
    PerpOrthogonal(uv, n, cosTheta, etaiOverEtat);
    Scale(etaiOverEtat, Add(uv, Scale(cosTheta, n)))
  }

  /** Snell's-law refraction of the unit direction `uv` through normal `n`:
      under the conditions of `RefractPerp` the refracted ray goes through
      the surface, against `n`. */
  function Refract(sqrt: real -> real, uv: Vec3, n: Vec3, etaiOverEtat: real): (r: Vec3)
    ensures IsSqrt(sqrt) && Dot(n, n) == 1.0 && -1.0 <= Dot(uv, n) ==> Dot(r, n) <= 0.0
  {
    var rOutPerp := RefractPerp(uv, n, etaiOverEtat);
    var rOutParallel := Scale(-sqrt(Abs(1.0 - LengthSquared(rOutPerp))), n);
    DotAdd(rOutPerp, rOutParallel, n);
    DotScale(-sqrt(Abs(1.0 - LengthSquared(rOutPerp))), n, n);
    Add(rOutPerp, rOutParallel)
  }

  // ---------------------------------------------------------------------------
  // Helpers for the contracts above

  /** Scaling by `t` scales the squared length by `t^2`. */
  lemma ScaleLengthSquared(t: real, v: Vec3)
    ensures LengthSquared(Scale(t, v)) == t * t * LengthSquared(v)
  {
    assert (t * v.x) * (t * v.x) == t * t * (v.x * v.x);
    assert (t * v.y) * (t * v.y) == t * t * (v.y * v.y);
    assert (t * v.z) * (t * v.z) == t * t * (v.z * v.z);
  }

  /** A magnitude below 1e-8 has a square below 1e-16. */
  lemma SmallSquare(a: real)
    ensures Abs(a) < 0.00000001 ==> a * a < 0.0000000000000001
  {
    var b := Abs(a);
    assert a * a == b * b;
    if b < 0.00000001 {
      assert b * b <= b * 0.00000001;
    }
  }

  /** The length is zero exactly for the zero vector. */
  lemma LengthZero(sqrt: real -> real, v: Vec3)
    ensures IsSqrt(sqrt) ==> (Length(sqrt, v) == 0.0 <==> v == Zero)
  {
    if IsSqrt(sqrt) {
      RootZero(Length(sqrt, v), LengthSquared(v));
      LengthSquaredZero(v);
    }
  }

  lemma RootZero(l: real, a: real)
    requires l * l == a
    ensures l == 0.0 <==> a == 0.0
  {
    SquareZero(l);
    if l != 0.0 {
      calc {
        0.0;
      <
        l * l;
      ==
        a;
      }
    } else {
      calc {
        a;
        l * l;
        0.0 * 0.0;
      }
    }
  }

  /** Scaling a vector scales its dot products. */
  lemma DotScale(t: real, u: Vec3, n: Vec3)
    ensures Dot(Scale(t, u), n) == t * Dot(u, n)
  {
  }

  lemma DotAdd(u: Vec3, v: Vec3, n: Vec3)
    ensures Dot(Add(u, v), n) == Dot(u, n) + Dot(v, n)
  {
  }

  /** `uv + c n` with `c == -(uv . n)` is orthogonal to a unit `n`, and so is any multiple of it. */
  lemma PerpOrthogonal(uv: Vec3, n: Vec3, cosTheta: real, eta: real)
    requires cosTheta == Min(Dot(Neg(uv), n), 1.0)
    ensures Dot(n, n) == 1.0 && -1.0 <= Dot(uv, n) ==> Dot(Scale(eta, Add(uv, Scale(cosTheta, n))), n) == 0.0
  {
    if Dot(n, n) == 1.0 && -1.0 <= Dot(uv, n) {
      assert Dot(Neg(uv), n) == -Dot(uv, n);
      assert cosTheta == -Dot(uv, n);
      DotScale(cosTheta, n, n);
      DotAdd(uv, Scale(cosTheta, n), n);
      DotScale(eta, Add(uv, Scale(cosTheta, n)), n);
    }
  }

  lemma MulNonNegative(a: real, b: real)
    requires 0.0 <= a && 0.0 <= b
    ensures 0.0 <= a * b
  {
    if a > 0.0 && b > 0.0 { MulPositive(a, b); }
  }

  /** The product of two numbers in [0, 1] is in [0, 1]. */
  lemma ProductBounded(a: real, b: real)
    requires 0.0 <= a <= 1.0 && 0.0 <= b <= 1.0
    ensures 0.0 <= a * b <= 1.0
  {
    MulNonNegative(a, b);
    MulNonNegative(1.0 - a, b);
  }

  // ---------------------------------------------------------------------------
  // Properties of the square-root parameter

  lemma SqrtUnique(sqrt: real -> real, a: real, s: real)
    requires IsSqrt(sqrt)
    requires 0.0 <= s && s * s == a
    ensures sqrt(a) == s
  {
    var q := sqrt(a);
    assert 0.0 <= q && q * q == a;
    assert (q - s) * (q + s) == 0.0;
    if q + s == 0.0 {
      assert q == 0.0 && s == 0.0;
    }
  }

  lemma MulPositive(a: real, b: real)
    requires 0.0 < a && 0.0 < b
    ensures 0.0 < a * b
  {
  }

  lemma SqrtMonotone(sqrt: real -> real, a: real, b: real)
    requires IsSqrt(sqrt)
    requires 0.0 <= a <= b
    ensures sqrt(a) <= sqrt(b)
  {
    var p, q := sqrt(a), sqrt(b);
    assert 0.0 <= p && p * p == a;
    assert 0.0 <= q && q * q == b;
    SquaresOrdered(p, q);
  }

  /** Of two non-negative numbers, the one with the smaller square is smaller. */
  lemma SquaresOrdered(p: real, q: real)
    requires 0.0 <= p && 0.0 <= q && p * p <= q * q
    ensures p <= q
  {
    DifferenceOfSquares(p, q);
    if p > q {
      MulPositive(p - q, p + q);
      assert false;
    }
  }

  lemma DifferenceOfSquares(p: real, q: real)
    ensures (p - q) * (p + q) == p * p - q * q
  {
  }

  // ---------------------------------------------------------------------------
  // Algebra of the products

  lemma DotSymmetric(u: Vec3, v: Vec3)
    ensures Dot(u, v) == Dot(v, u)
  {
  }

  lemma CrossAntisymmetric(u: Vec3, v: Vec3)
    ensures Cross(u, v) == Neg(Cross(v, u))
  {
  }

  /** |u|^2 |v|^2 - (u.v)^2 == |u x v|^2 */
  lemma LagrangeIdentity(u: Vec3, v: Vec3)
    ensures LengthSquared(u) * LengthSquared(v) - Dot(u, v) * Dot(u, v) == LengthSquared(Cross(u, v))
  {
  }

  lemma CauchySchwarz(u: Vec3, v: Vec3)
    ensures Dot(u, v) * Dot(u, v) <= LengthSquared(u) * LengthSquared(v)
  {
    LagrangeIdentity(u, v);
  }

  /** A unit vector's components have magnitude at most one. */
  lemma UnitComponentsBounded(v: Vec3)
    requires LengthSquared(v) == 1.0
    ensures -1.0 <= v.x <= 1.0 && -1.0 <= v.y <= 1.0 && -1.0 <= v.z <= 1.0
  {
    SquareNonNegative(v.x);
    SquareNonNegative(v.y);
    SquareNonNegative(v.z);
    if v.x > 1.0 || v.x < -1.0 { SquareAboveOne(v.x); assert false; }
    if v.y > 1.0 || v.y < -1.0 { SquareAboveOne(v.y); assert false; }
    if v.z > 1.0 || v.z < -1.0 { SquareAboveOne(v.z); assert false; }
  }

  /** For unit vectors, the dot product lies in [-1, 1]. */
  lemma UnitDotBounded(u: Vec3, v: Vec3)
    requires LengthSquared(u) == 1.0 && LengthSquared(v) == 1.0
    ensures -1.0 <= Dot(u, v) <= 1.0
  {
    CauchySchwarz(u, v);
    var d := Dot(u, v);
    if d > 1.0 || d < -1.0 { SquareAboveOne(d); assert false; }
  }

  /** `length_squared` vanishes only on the zero vector. */
  lemma LengthSquaredZero(v: Vec3)
    ensures Dot(v, v) == 0.0 <==> v == Zero
  {
    SquareZero(v.x);
    SquareZero(v.y);
    SquareZero(v.z);
    if v.x != 0.0 {
      calc {
        0.0;
      <
        v.x * v.x;
      <=
        v.x * v.x + v.y * v.y + v.z * v.z;
      ==
        Dot(v, v);
      }
    } else if v.y != 0.0 {
      calc {
        0.0;
      <
        v.y * v.y;
      <=
        v.x * v.x + v.y * v.y + v.z * v.z;
      ==
        Dot(v, v);
      }
    } else if v.z != 0.0 {
      calc {
        0.0;
      <
        v.z * v.z;
      <=
        v.x * v.x + v.y * v.y + v.z * v.z;
      ==
        Dot(v, v);
      }
    }
  }

  // ---------------------------------------------------------------------------
  // Unit vectors

  /** `unit_vector` fails exactly on a zero-length vector and otherwise has length one. */
  lemma UnitVectorIsUnit(sqrt: real -> real, v: Vec3)
    requires IsSqrt(sqrt)
    ensures UnitVector(sqrt, v).Err? <==> LengthSquared(v) == 0.0
    ensures UnitVector(sqrt, v).Ok? ==> LengthSquared(UnitVector(sqrt, v).value) == 1.0
  {
    assert 0.0 <= sqrt(LengthSquared(v));
    assert sqrt(LengthSquared(v)) * sqrt(LengthSquared(v)) == LengthSquared(v);
    SquareZero(sqrt(LengthSquared(v)));
    if sqrt(LengthSquared(v)) != 0.0 {
      calc {
        0.0;
      <
        sqrt(LengthSquared(v)) * sqrt(LengthSquared(v));
      ==
        LengthSquared(v);
      }
      DivideByLength(v, sqrt(LengthSquared(v)));
    }
  }

  /** Dividing by a length whose square is the squared length leaves length one. */
  lemma DivideByLength(v: Vec3, len: real)
    requires len != 0.0 && len * len == LengthSquared(v)
    ensures LengthSquared(Div(v, len)) == 1.0
  {
    DivSquare(v.x, len);
    DivSquare(v.y, len);
    DivSquare(v.z, len);
    calc {
      LengthSquared(Div(v, len)) * (len * len);
      LengthSquared(v);
      len * len;
    }
    CancelSquare(LengthSquared(Div(v, len)), len);
  }

  // ---------------------------------------------------------------------------
  // Reflection

  /** Reflection about a unit normal negates the normal component. */
  lemma ReflectNegatesNormalComponent(v: Vec3, n: Vec3)
    requires Dot(n, n) == 1.0
    ensures Dot(Reflect(v, n), n) == -Dot(v, n)
  {
    var d := Dot(v, n);
    calc {
      Dot(Reflect(v, n), n);
      Dot(v, n) - 2.0 * d * Dot(n, n);
      -d;
    }
  }

  /** Reflection about a unit normal is an involution. */
  lemma ReflectInvolutive(v: Vec3, n: Vec3)
    requires Dot(n, n) == 1.0
    ensures Reflect(Reflect(v, n), n) == v
  {
    ReflectNegatesNormalComponent(v, n);
    var r := Reflect(v, n);
    assert Reflect(r, n) == Sub(r, Scale(-2.0 * Dot(v, n), n));
  }

  /** Reflection preserves length when the normal is a unit vector. */
  lemma ReflectPreservesLength(v: Vec3, n: Vec3)
    requires Dot(n, n) == 1.0
    ensures LengthSquared(Reflect(v, n)) == LengthSquared(v)
  {
    var d := Dot(v, n);
    var w := Scale(2.0 * d, n);
    assert Reflect(v, n) == Sub(v, w);
    SubLengthSquared(v, w);
    assert Dot(v, w) == 2.0 * d * d by {
      DotSymmetric(v, w);
      DotScale(2.0 * d, n, v);
      DotSymmetric(n, v);
    }
    assert Dot(w, w) == 4.0 * d * d by {
      ScaleLengthSquared(2.0 * d, n);
    }
  }

  /** `|v - w|^2 == |v|^2 - 2 dot(v, w) + |w|^2`. */
  lemma SubLengthSquared(v: Vec3, w: Vec3)
    ensures LengthSquared(Sub(v, w)) == Dot(v, v) - 2.0 * Dot(v, w) + Dot(w, w)
  {
    assert (v.x - w.x) * (v.x - w.x) == v.x * v.x - 2.0 * (v.x * w.x) + w.x * w.x;
    assert (v.y - w.y) * (v.y - w.y) == v.y * v.y - 2.0 * (v.y * w.y) + w.y * w.y;
    assert (v.z - w.z) * (v.z - w.z) == v.z * v.z - 2.0 * (v.z * w.z) + w.z * w.z;
  }

  // ---------------------------------------------------------------------------
  // Refraction

  /** The refracted direction is the perpendicular part plus a non-positive multiple of `n`. */
  lemma RefractDecomposition(sqrt: real -> real, uv: Vec3, n: Vec3, eta: real)
    requires IsSqrt(sqrt)
    ensures exists k :: k <= 0.0 && Refract(sqrt, uv, n, eta) == Add(RefractPerp(uv, n, eta), Scale(k, n))
  {
    var k := -sqrt(Abs(1.0 - LengthSquared(RefractPerp(uv, n, eta))));
    assert k <= 0.0;
    assert Refract(sqrt, uv, n, eta) == Add(RefractPerp(uv, n, eta), Scale(k, n));
  }

  /** With ratio 1, a unit direction meeting a unit normal from the front is not bent. */
  lemma RefractIndexOne(sqrt: real -> real, uv: Vec3, n: Vec3)
    requires IsSqrt(sqrt)
    requires LengthSquared(uv) == 1.0 && LengthSquared(n) == 1.0
    requires Dot(uv, n) <= 0.0
    ensures Refract(sqrt, uv, n, 1.0) == uv
  {
    var c := -Dot(uv, n);
    UnitDotBounded(uv, n);
    var perp := RefractPerp(uv, n, 1.0);
    assert perp == Add(uv, Scale(c, n)) by {
      assert Dot(Neg(uv), n) == c;
    }
    assert LengthSquared(perp) == 1.0 - c * c by {
      PerpLength(uv, n, c);
    }
    assert Abs(1.0 - LengthSquared(perp)) == c * c;
    SqrtUnique(sqrt, c * c, c);
  }

  lemma PerpLength(uv: Vec3, n: Vec3, c: real)
    requires LengthSquared(uv) == 1.0 && LengthSquared(n) == 1.0 && c == -Dot(uv, n)
    ensures LengthSquared(Add(uv, Scale(c, n))) == 1.0 - c * c
  {
    calc {
      LengthSquared(Add(uv, Scale(c, n)));
      Dot(uv, uv) + 2.0 * c * Dot(uv, n) + c * c * Dot(n, n);
      1.0 - 2.0 * c * c + c * c;
    }
  }

  // ---------------------------------------------------------------------------
  // Algebra of the arithmetic operators

  lemma AddSubInverse(u: Vec3, v: Vec3)
    ensures Sub(Add(u, v), v) == u && Add(Sub(u, v), v) == u
  {
  }

  lemma SubZero(u: Vec3, v: Vec3)
    ensures Sub(u, v) == Zero <==> u == v
  {
  }

  /** Vector addition is commutative and associative, with the zero vector
      as its neutral element. */
  lemma AddLaws(u: Vec3, v: Vec3, w: Vec3)
    ensures Add(u, v) == Add(v, u)
    ensures Add(Add(u, v), w) == Add(u, Add(v, w))
    ensures Add(u, Zero) == u
  {
  }

  lemma NegInvolutive(v: Vec3)
    ensures Neg(Neg(v)) == v
  {
  }

  lemma ScaleDistributes(t: real, u: Vec3, v: Vec3)
    ensures Scale(t, Add(u, v)) == Add(Scale(t, u), Scale(t, v))
  {
  }

  lemma ScaleSplits(a: real, b: real, d: Vec3)
    ensures Scale(a + b, d) == Add(Scale(a, d), Scale(b, d))
  {
    assert (a + b) * d.x == a * d.x + b * d.x;
    assert (a + b) * d.y == a * d.y + b * d.y;
    assert (a + b) * d.z == a * d.z + b * d.z;
  }

  /** A Vec3 object: its identity plus the tuple `e` that the in-place operators rebind. */
  class MutableVec3 {
    var e: Vec3

    constructor (e0: real, e1: real, e2: real)
      ensures e == Vec3(e0, e1, e2)
    {
      e := Vec3(e0, e1, e2);
    }

    /** `self += other`: rebinds `e` and returns the receiver itself. */
    method IAdd(other: Vec3) returns (self: MutableVec3)
      modifies this
      ensures e == Add(old(e), other)
      ensures self == this
    {
      e := Add(e, other);
      self := this;
    }

    /** `self -= other`: rebinds `e` and returns the receiver itself. */
    method ISub(other: Vec3) returns (self: MutableVec3)
      modifies this
      ensures e == Sub(old(e), other)
      ensures self == this
    {
      e := Sub(e, other);
      self := this;
    }

    /** `self *= t`: rebinds `e` and returns the receiver itself. */
    method IMul(t: real) returns (self: MutableVec3)
      modifies this
      ensures e == Scale(t, old(e))
      ensures self == this
    {
      e := Scale(t, e);
      self := this;
    }

    /** `self[i] = value`: `e` is a tuple, so item assignment always raises. */
    method SetItem(i: int, value: real) returns (raised: PyError)
      ensures raised == TypeError
      ensures e == old(e)
    {
      raised := TypeError;
    }

    /** `self /= t`: computes `1 / t` (raising on zero), then fails to assign into the tuple. */
    method ITrueDiv(t: real) returns (raised: PyError)
      ensures raised == (if t == 0.0 then ZeroDivisionError else TypeError)
      ensures e == old(e)
    {
      if t == 0.0 {
        raised := ZeroDivisionError;
      } else {
        raised := TypeError;
      }
    }
  }
}
