/** `Cube.hit`: the slab test over the three axes, then the face scan that
    picks the normal. */
module Cubes {
  import opened Errors
  import opened Vectors
  import opened Intervals
  import opened Rays
  import opened HittableObject

  /** An axis-aligned box given by two corners and a material. */
  datatype Cube<M> = Cube(minCorner: Vec3, maxCorner: Vec3, material: M)

  /** What the slab loop ends with: both bounds after the third axis, a
      rejection (`t_max <= t_min` after some axis), or the division by a zero
      direction component. */
  datatype SlabOutcome = Passed(lo: real, hi: real) | Rejected | DivisionByZero

  /** Distance below which the hit point counts as lying on a face plane. */
  const Epsilon: real := 0.0001

  /** The list `outward_normals`, indexed by the scan counter `i`. */
  const OutwardNormals: seq<Vec3> := [Vec3(-1.0, 0.0, 0.0), Vec3(1.0, 0.0, 0.0),
                                      Vec3(0.0, -1.0, 0.0), Vec3(0.0, 1.0, 0.0),
                                      Vec3(0.0, 0.0, -1.0), Vec3(0.0, 0.0, 1.0)]

  /** `1.0 / direction[i]`. */
  function Inverse(d: real): real
    requires d != 0.0
  {
    1.0 / d
  }

  /** The parameter at which the ray crosses the plane `corner` on one axis. */
  function Crossing(corner: real, origin: real, invD: real): real
  {
    (corner - origin) * invD
  }

  /** The entry parameter `t0` and the exit parameter `t1` on axis `i`,
      swapped when the inverse direction component is negative; `None` when
      that component is zero and `1.0 / direction[i]` raises. */
  function AxisTimes<M>(c: Cube<M>, r: Ray, i: int): (ts: Option<(real, real)>)
    requires 0 <= i < 3
    ensures ts.None? <==> Get(r.dir, i) == 0.0
    ensures ts.Some? && Get(c.minCorner, i) <= Get(c.maxCorner, i) ==> ts.value.0 <= ts.value.1
  {
    if Get(r.dir, i) == 0.0 then None
    else
      var invD := Inverse(Get(r.dir, i));
      var t0 := Crossing(Get(c.minCorner, i), Get(r.orig, i), invD);
      var t1 := Crossing(Get(c.maxCorner, i), Get(r.orig, i), invD);
      CrossingOrder(Get(c.minCorner, i), Get(c.maxCorner, i), Get(r.orig, i), invD);
      if invD < 0.0 then Some((t1, t0)) else Some((t0, t1))
  }

  /** The times of the three axes, in loop order. */
  function Axes<M>(c: Cube<M>, r: Ray): (ts: seq<Option<(real, real)>>)
    ensures |ts| == 3 && forall i :: 0 <= i < 3 ==> ts[i] == AxisTimes(c, r, i)
    ensures forall i :: 0 <= i < 3 ==> (ts[i].None? <==> Get(r.dir, i) == 0.0)
  {
    [AxisTimes(c, r, 0), AxisTimes(c, r, 1), AxisTimes(c, r, 2)]
  }

  /** The slab loop from axis `i` on, with the current bounds `tMin`, `tMax`,
      over the axis times `ts`. Once an axis has been passed both bounds are
      finite and ordered; a passed loop only ever raised the lower and lowered
      the upper bound. */
  function Slab(ts: seq<Option<(real, real)>>, i: nat, tMin: ExtReal, tMax: ExtReal): (o: SlabOutcome)
    requires i <= |ts|
    requires 0 < i ==> tMin.Finite? && tMax.Finite? && Lt(tMin, tMax)
    ensures o.Passed? ==> Le(tMin, Finite(o.lo)) && o.lo < o.hi && Le(Finite(o.hi), tMax)
    decreases |ts| - i
  {
    if i == |ts| then
      if i == 0 then Rejected   // no axis at all; the loop has three
      else Passed(tMin.r, tMax.r)
    else if ts[i].None? then DivisionByZero
    else
      var (t0, t1) := ts[i].value;
      var lo := if Lt(tMin, Finite(t0)) then Finite(t0) else tMin;
      var hi := if Lt(Finite(t1), tMax) then Finite(t1) else tMax;
      if Le(hi, lo) then Rejected
      else
        var o := Slab(ts, i + 1, lo, hi);
        assert o.Passed? ==> Le(tMin, Finite(o.lo)) by {
          if o.Passed? && Lt(tMin, lo) { LtLeTransitive(tMin, lo, Finite(o.lo)); }
        }
        assert o.Passed? ==> Le(Finite(o.hi), tMax) by {
          if o.Passed? && Lt(hi, tMax) { LeLtTransitive(Finite(o.hi), hi, tMax); }
        }
        o
  }

  /** A face the scan stopped at: the counter `i` and whether the point was
      near the maximum rather than the minimum plane of axis `i % 3`. */
  datatype Face = Face(counter: nat, atMax: bool)

  /** The outward normal handed to `set_face_normal` for a face:
      `outward_normals[i]` at a minimum plane, its negation at a maximum one. */
  function Outward(f: Face): (n: Vec3)
    requires f.counter < 6
  {
    if f.atMax then Neg(OutwardNormals[f.counter]) else OutwardNormals[f.counter]
  }

  /** Every normal the face scan can hand out is a unit vector along the
      axis of its counter's pair: counters 0 and 1 along x, 2 and 3 along y,
      4 and 5 along z. */
  lemma OutwardIsUnitAxis(f: Face)
    requires f.counter < 6
    ensures Abs(Get(Outward(f), f.counter / 2)) == 1.0
    ensures forall j :: 0 <= j < 3 && j != f.counter / 2 ==> Get(Outward(f), j) == 0.0
  {
  }


  /** Crossing parameters keep the order of the planes for a positive
      inverse direction and reverse it for a negative one. */
  lemma CrossingOrder(lo: real, hi: real, origin: real, invD: real)
    ensures lo <= hi && 0.0 <= invD ==> Crossing(lo, origin, invD) <= Crossing(hi, origin, invD)
    ensures lo <= hi && invD <= 0.0 ==> Crossing(hi, origin, invD) <= Crossing(lo, origin, invD)
  {
    assert Crossing(hi, origin, invD) - Crossing(lo, origin, invD) == (hi - lo) * invD;
    if lo <= hi && 0.0 <= invD {
      MulNonNegative(hi - lo, invD);
    } else if lo <= hi && invD <= 0.0 {
      MulNonNegative(hi - lo, -invD);
    }
  }

  /** The face scan from counter `i` on: axis `i % 3` is compared with the
      minimum and then the maximum corner; the first plane within `Epsilon`
      wins. */
  function FaceScan<M>(c: Cube<M>, p: Vec3, i: nat): (f: Option<Face>)
    requires i <= 6
    ensures f.Some? ==> i <= f.value.counter < 6
    decreases 6 - i
  {
    if i == 6 then None
    else if Abs(Get(p, i % 3) - Get(c.minCorner, i % 3)) < Epsilon then Some(Face(i, false))
    else if Abs(Get(p, i % 3) - Get(c.maxCorner, i % 3)) < Epsilon then Some(Face(i, true))
    else FaceScan(c, p, i + 1)
  }

  /** The point lies within `Epsilon` of the minimum plane of axis `k % 3`. */
  predicate NearMin<M>(c: Cube<M>, p: Vec3, k: nat)
  {
    Abs(Get(p, k % 3) - Get(c.minCorner, k % 3)) < Epsilon
  }

  /** The point lies within `Epsilon` of the maximum plane of axis `k % 3`. */
  predicate NearMax<M>(c: Cube<M>, p: Vec3, k: nat)
  {
    Abs(Get(p, k % 3) - Get(c.maxCorner, k % 3)) < Epsilon
  }

  /** The scan finds no face exactly when no remaining counter has a plane
      within `Epsilon` of the point. */
  lemma {:induction false} FaceScanMisses<M>(c: Cube<M>, p: Vec3, i: nat)
    requires i <= 6
    ensures FaceScan(c, p, i).None? <==>
              forall k :: i <= k < 6 ==> !NearMin(c, p, k) && !NearMax(c, p, k)
    decreases 6 - i
  {
    if i == 6 {
    } else if NearMin(c, p, i) {
      assert FaceScan(c, p, i) == Some(Face(i, false));
    } else if NearMax(c, p, i) {
      assert FaceScan(c, p, i) == Some(Face(i, true));
    } else {
      assert FaceScan(c, p, i) == FaceScan(c, p, i + 1);
      FaceScanMisses(c, p, i + 1);
    }
  }

  /** The scan stops at the first counter whose axis has a plane within
      `Epsilon` of the point, on the minimum plane unless only the maximum
      one is near. */
  lemma {:induction false} FaceScanFirst<M>(c: Cube<M>, p: Vec3, i: nat, f: Face)
    requires i <= 6
    requires FaceScan(c, p, i) == Some(f)
    ensures NearMin(c, p, f.counter) || NearMax(c, p, f.counter)
    ensures f.atMax <==> !NearMin(c, p, f.counter)
    ensures forall k :: i <= k < f.counter ==> !NearMin(c, p, k) && !NearMax(c, p, k)
    decreases 6 - i
  {
    if !NearMin(c, p, i) && !NearMax(c, p, i) {
      FaceScanFirst(c, p, i + 1, f);
    }
  }


  /** The effect of `hit(r, ray_t, rec)`: a zero direction component that the
      loop reaches raises; a rejection returns False untouched; otherwise `t`,
      `p` and `material` are written and the face scan either sets the normal
      and returns True or finds no face and returns False. */
  function Intersect<M>(c: Cube<M>, r: Ray, rayT: Interval): (e: Effect<M>)
    ensures e.Raised? ==> e.error == ZeroDivisionError
    ensures e.Scribbled? ==> e.raised.None?
    ensures e.Found? ==> e.hit.material == c.material && Dot(r.dir, e.hit.normal) <= 0.0
  {
    match Slab(Axes(c, r), 0, rayT.min, rayT.max)
    case DivisionByZero => Raised(ZeroDivisionError)
    case Rejected => Miss
    case Passed(t, _) =>
      var p := r.At(t);
      match FaceScan(c, p, 0)
      case None => Scribbled(t, p, c.material, None)
      case Some(f) =>
        var n := Outward(f);
        Found(Hit(p, FaceNormal(r.dir, n), c.material, t, Dot(r.dir, n) < 0.0))
  }

  /** `Cube.hit`: the slab loop, then the writes to the record and the face scan. */
  method HitCube<M>(c: Cube<M>, r: Ray, rayT: Interval, rec: HitRecord<M>) returns (res: Result<bool>)
    modifies rec
    ensures res == Outcome(Intersect(c, r, rayT))
    ensures rec.Current() == Apply(old(rec.Current()), Intersect(c, r, rayT))
  {
    var slab := SlabLoop(c, r, rayT);
    match slab
    case DivisionByZero =>
      return Err(ZeroDivisionError);
    case Rejected =>
      return Ok(false);
    case Passed(t, hi) =>
      var found := RecordCubeHit(c, r, rayT, rec, t, hi);
      return Ok(found);
  }

  /** The part of `Cube.hit` after a passed slab loop: `t`, `p` and
      `material` are written, then the face scan runs. */
  method RecordCubeHit<M>(c: Cube<M>, r: Ray, rayT: Interval, rec: HitRecord<M>, t: real, hi: real)
    returns (found: bool)
    requires Slab(Axes(c, r), 0, rayT.min, rayT.max) == Passed(t, hi)
    modifies rec
    ensures Ok(found) == Outcome(Intersect(c, r, rayT))
    ensures rec.Current() == Apply(old(rec.Current()), Intersect(c, r, rayT))
  {
    rec.t := Some(t);
    rec.p := Some(r.At(t));
    rec.material := Some(c.material);
    found := ScanFaces(c, r, rec, rec.p.value);
    if found {
      FoundAt(c, r, rayT, t, hi, Outward(FaceScan(c, r.At(t), 0).value));
    }
  }

  /** The slab loop of `Cube.hit` over `range(3)`: `t_min` and `t_max` start
      at the interval's bounds and are narrowed axis by axis; the loop stops
      early on a zero direction component or once `t_max <= t_min`. */
  method SlabLoop<M>(c: Cube<M>, r: Ray, rayT: Interval) returns (o: SlabOutcome)
    ensures o == Slab(Axes(c, r), 0, rayT.min, rayT.max)
  {
    ghost var ts := Axes(c, r);
    var tMin, tMax := rayT.min, rayT.max;
    for i := 0 to 3
      invariant 0 < i ==> tMin.Finite? && tMax.Finite? && Lt(tMin, tMax)
      invariant Slab(ts, i, tMin, tMax) == Slab(ts, 0, rayT.min, rayT.max)
    {
      if Get(r.dir, i) == 0.0 {
        return DivisionByZero;
      }
      var invD := Inverse(Get(r.dir, i));
      var t0 := Crossing(Get(c.minCorner, i), Get(r.orig, i), invD);
      var t1 := Crossing(Get(c.maxCorner, i), Get(r.orig, i), invD);
      if invD < 0.0 {
        t0, t1 := t1, t0;
      }
      tMin := if Lt(tMin, Finite(t0)) then Finite(t0) else tMin;
      tMax := if Lt(Finite(t1), tMax) then Finite(t1) else tMax;
      if Le(tMax, tMin) {
        return Rejected;
      }
    }
    return Passed(tMin.r, tMax.r);
  }

  /** The face scan of `Cube.hit` over `range(6)` on a record whose `t`, `p`
      and `material` have just been written. */
  method ScanFaces<M>(c: Cube<M>, r: Ray, rec: HitRecord<M>, p: Vec3) returns (found: bool)
    requires rec.p == Some(p)
    modifies rec
    ensures found <==> FaceScan(c, p, 0).Some?
    ensures rec.p == old(rec.p) && rec.t == old(rec.t) && rec.material == old(rec.material)
    ensures found ==> rec.normal == Some(FaceNormal(r.dir, Outward(FaceScan(c, p, 0).value)))
                      && rec.frontFace == Some(Dot(r.dir, Outward(FaceScan(c, p, 0).value)) < 0.0)
    ensures !found ==> rec.normal == old(rec.normal) && rec.frontFace == old(rec.frontFace)
  {
    for i := 0 to 6
      invariant FaceScan(c, p, i) == FaceScan(c, p, 0)
      invariant rec.Current() == old(rec.Current())
    {
      if Abs(Get(rec.p.value, i % 3) - Get(c.minCorner, i % 3)) < Epsilon {
        rec.SetFaceNormal(r, OutwardNormals[i]);
        return true;
      } else if Abs(Get(rec.p.value, i % 3) - Get(c.maxCorner, i % 3)) < Epsilon {
        rec.SetFaceNormal(r, Neg(OutwardNormals[i]));
        return true;
      }
    }
    return false;
  }

  lemma FoundAt<M>(c: Cube<M>, r: Ray, rayT: Interval, t: real, hi: real, n: Vec3)
    requires Slab(Axes(c, r), 0, rayT.min, rayT.max) == Passed(t, hi)
    requires FaceScan(c, r.At(t), 0).Some? && Outward(FaceScan(c, r.At(t), 0).value) == n
    ensures Intersect(c, r, rayT) == Found(Hit(r.At(t), FaceNormal(r.dir, n), c.material, t, Dot(r.dir, n) < 0.0))
  {
  }

  /** After the slab loop passes, the reported parameter satisfies
      `ray_t.min <= t < ray_t.max` (the lower end is not strict), and the
      record holds the ray point at `t` and the cube's material, whether or
      not the face scan then succeeds. */
  lemma CubeBounds<M>(c: Cube<M>, r: Ray, rayT: Interval)
    requires Intersect(c, r, rayT).Found? || Intersect(c, r, rayT).Scribbled?
    ensures var e := Intersect(c, r, rayT);
      var t := if e.Found? then e.hit.t else e.t;
      && Le(rayT.min, Finite(t)) && Lt(Finite(t), rayT.max)
      && (e.Found? ==> e.hit.p == r.At(t) && e.hit.material == c.material)
      && (e.Scribbled? ==> e.p == r.At(t) && e.material == c.material && e.raised == None)
  {
    var o := Slab(Axes(c, r), 0, rayT.min, rayT.max);
    LtLeTransitive(Finite(o.lo), Finite(o.hi), rayT.max);
  }

  /** The division raises only for a zero direction component, and always
      for a zero x component (the first axis is always reached). */
  lemma CubeRaises<M>(c: Cube<M>, r: Ray, rayT: Interval)
    ensures Intersect(c, r, rayT).Raised? ==> Intersect(c, r, rayT).error == ZeroDivisionError
    ensures Intersect(c, r, rayT).Raised? ==> r.dir.x == 0.0 || r.dir.y == 0.0 || r.dir.z == 0.0
    ensures r.dir.x == 0.0 ==> Intersect(c, r, rayT).Raised?
  {
    var ts := Axes(c, r);
    SlabRaises(ts, 0, rayT.min, rayT.max);
    if Slab(ts, 0, rayT.min, rayT.max).DivisionByZero? {
      var j :| 0 <= j < 3 && ts[j].None?;
      assert Get(r.dir, j) == 0.0;
    }
  }

  /** The slab loop stops with a division by zero only at an axis without times. */
  lemma {:induction false} SlabRaises(ts: seq<Option<(real, real)>>, i: nat, tMin: ExtReal, tMax: ExtReal)
    requires i <= |ts|
    requires 0 < i ==> tMin.Finite? && tMax.Finite? && Lt(tMin, tMax)
    ensures Slab(ts, i, tMin, tMax).DivisionByZero? ==> exists j :: i <= j < |ts| && ts[j].None?
    decreases |ts| - i
  {
    if i < |ts| && ts[i].Some? {
      var (t0, t1) := ts[i].value;
      var lo := if Lt(tMin, Finite(t0)) then Finite(t0) else tMin;
      var hi := if Lt(Finite(t1), tMax) then Finite(t1) else tMax;
      if !Le(hi, lo) {
        SlabRaises(ts, i + 1, lo, hi);
      }
    }
  }

  /** Lowering the upper bound to anything still above the accepted lower
      bound keeps the slab test passing with the same lower bound. */
  lemma {:induction false} SlabNarrower(ts: seq<Option<(real, real)>>, i: nat, tMin: ExtReal, tMax: ExtReal, tMax': ExtReal)
    requires i <= |ts|
    requires 0 < i ==> tMin.Finite? && tMax.Finite? && Lt(tMin, tMax)
    requires 0 < i ==> tMax'.Finite? && Lt(tMin, tMax')
    requires Slab(ts, i, tMin, tMax).Passed?
    requires Le(tMax', tMax) && Lt(Finite(Slab(ts, i, tMin, tMax).lo), tMax')
    ensures Slab(ts, i, tMin, tMax').Passed?
    ensures Slab(ts, i, tMin, tMax').lo == Slab(ts, i, tMin, tMax).lo
    decreases |ts| - i
  {
    if i < |ts| {
      var t := Slab(ts, i, tMin, tMax).lo;
      var (t0, t1) := ts[i].value;
      var lo := if Lt(tMin, Finite(t0)) then Finite(t0) else tMin;
      var hi := if Lt(Finite(t1), tMax) then Finite(t1) else tMax;
      var hi' := if Lt(Finite(t1), tMax') then Finite(t1) else tMax';
      var o := Slab(ts, i + 1, lo, hi);
      assert Le(lo, Finite(t)) && t < o.hi && Le(Finite(o.hi), hi);
      assert Lt(Finite(t), hi) by { LtLeTransitive(Finite(t), Finite(o.hi), hi); }
      assert Lt(Finite(t), hi');
      assert Lt(lo, hi') by { LeLtTransitive(lo, Finite(t), hi'); }
      SlabNarrower(ts, i + 1, lo, hi, hi');
    }
  }

  /** Raising the upper bound keeps the slab test passing with the same
      lower bound. */
  lemma {:induction false} SlabWider(ts: seq<Option<(real, real)>>, i: nat, tMin: ExtReal, tMax': ExtReal, tMax: ExtReal)
    requires i <= |ts|
    requires 0 < i ==> tMin.Finite? && tMax'.Finite? && Lt(tMin, tMax')
    requires 0 < i ==> tMax.Finite?
    requires Slab(ts, i, tMin, tMax').Passed?
    requires Le(tMax', tMax)
    ensures 0 < i ==> Lt(tMin, tMax)
    ensures Slab(ts, i, tMin, tMax).Passed?
    ensures Slab(ts, i, tMin, tMax).lo == Slab(ts, i, tMin, tMax').lo
    decreases |ts| - i
  {
    if 0 < i { LtLeTransitive(tMin, tMax', tMax); }
    if i < |ts| {
      var (t0, t1) := ts[i].value;
      var lo := if Lt(tMin, Finite(t0)) then Finite(t0) else tMin;
      var hi' := if Lt(Finite(t1), tMax') then Finite(t1) else tMax';
      var hi := if Lt(Finite(t1), tMax) then Finite(t1) else tMax;
      assert Le(hi', hi);
      assert Lt(lo, hi') by { LtTotal(lo, hi'); }
      assert Lt(lo, hi) by { LtLeTransitive(lo, hi', hi); }
      SlabWider(ts, i + 1, lo, hi', hi);
    }
  }

  /** Lowering `ray_t.max` to any bound still above the reported `t` leaves
      the effect unchanged. */
  lemma CubeNarrowerKeepsHit<M>(c: Cube<M>, r: Ray, lo: ExtReal, hi: ExtReal, hi': ExtReal)
    requires Intersect(c, r, Interval(lo, hi)).Found?
    requires Le(hi', hi) && Lt(Finite(Intersect(c, r, Interval(lo, hi)).hit.t), hi')
    ensures Intersect(c, r, Interval(lo, hi')) == Intersect(c, r, Interval(lo, hi))
  {
    SlabNarrower(Axes(c, r), 0, lo, hi, hi');
  }

  /** Raising `ray_t.max` leaves a hit unchanged. */
  lemma CubeWiderKeepsHit<M>(c: Cube<M>, r: Ray, lo: ExtReal, hi': ExtReal, hi: ExtReal)
    requires Intersect(c, r, Interval(lo, hi')).Found?
    requires Le(hi', hi)
    ensures Intersect(c, r, Interval(lo, hi)) == Intersect(c, r, Interval(lo, hi'))
  {
    SlabWider(Axes(c, r), 0, lo, hi', hi);
  }

  /** A unit vector along the x or the y axis. */
  predicate AlongXOrY(n: Vec3)
  {
    n == Vec3(-1.0, 0.0, 0.0) || n == Vec3(1.0, 0.0, 0.0) || n == Vec3(0.0, -1.0, 0.0) || n == Vec3(0.0, 1.0, 0.0)
  }

  /** Counters 3 to 5 repeat the tests of counters 0 to 2 (the same axes
      `i % 3`), so the scan can only stop at counters 0 to 2. */
  lemma FaceScanFirstRound<M>(c: Cube<M>, p: Vec3)
    ensures FaceScan(c, p, 0).Some? ==> FaceScan(c, p, 0).value.counter < 3
  {
    if Abs(p.x - c.minCorner.x) >= Epsilon && Abs(p.x - c.maxCorner.x) >= Epsilon {
      assert FaceScan(c, p, 0) == FaceScan(c, p, 1);
      if Abs(p.y - c.minCorner.y) >= Epsilon && Abs(p.y - c.maxCorner.y) >= Epsilon {
        assert FaceScan(c, p, 1) == FaceScan(c, p, 2);
        if Abs(p.z - c.minCorner.z) >= Epsilon && Abs(p.z - c.maxCorner.z) >= Epsilon {
          assert FaceScan(c, p, 2) == FaceScan(c, p, 3);
          assert FaceScan(c, p, 3) == FaceScan(c, p, 4);
          assert FaceScan(c, p, 4) == FaceScan(c, p, 5);
        }
      }
    }
  }

  /** The first three outward normals and their negations lie along x or y. */
  lemma FirstRoundAlongXOrY(f: Face)
    requires f.counter < 3
    ensures AlongXOrY(Outward(f))
  {
  }

  /** The normal of a cube hit always lies along x or y, never along z:
      the z faces are never tested with their own normals. */
  lemma CubeNormalNeverAlongZ<M>(c: Cube<M>, r: Ray, rayT: Interval)
    requires Intersect(c, r, rayT).Found?
    ensures AlongXOrY(Intersect(c, r, rayT).hit.normal)
    ensures Intersect(c, r, rayT).hit.normal.z == 0.0
  {
    var t := Slab(Axes(c, r), 0, rayT.min, rayT.max).lo;
    var f := FaceScan(c, r.At(t), 0).value;
    assert Intersect(c, r, rayT).hit.normal == FaceNormal(r.dir, Outward(f));
    FaceScanFirstRound(c, r.At(t));
    FirstRoundAlongXOrY(f);
    AxisNormalFlipped(r.dir, Outward(f));
  }

  lemma AxisNormalFlipped(dir: Vec3, n: Vec3)
    requires AlongXOrY(n)
    ensures AlongXOrY(FaceNormal(dir, n))
  {
  }

  /** A point on the lower y face (and on no x face) is given the outward
      normal (1, 0, 0), the entry of `outward_normals` at counter 1. */
  lemma YFaceGetsXNormal<M>(c: Cube<M>, p: Vec3)
    requires Abs(p.x - c.minCorner.x) >= Epsilon && Abs(p.x - c.maxCorner.x) >= Epsilon
    requires Abs(p.y - c.minCorner.y) < Epsilon
    ensures FaceScan(c, p, 0) == Some(Face(1, false))
    ensures Outward(Face(1, false)) == Vec3(1.0, 0.0, 0.0)
  {
  }

  /** A point on the upper z face (and on no x or y face) is given the
      outward normal (0, 1, 0), the negation of the entry at counter 2. */
  lemma ZFaceGetsYNormal<M>(c: Cube<M>, p: Vec3)
    requires Abs(p.x - c.minCorner.x) >= Epsilon && Abs(p.x - c.maxCorner.x) >= Epsilon
    requires Abs(p.y - c.minCorner.y) >= Epsilon && Abs(p.y - c.maxCorner.y) >= Epsilon
    requires Abs(p.z - c.minCorner.z) >= Epsilon && Abs(p.z - c.maxCorner.z) < Epsilon
    ensures FaceScan(c, p, 0) == Some(Face(2, true))
    ensures Outward(Face(2, true)) == Vec3(0.0, 1.0, 0.0)
  {
    assert FaceScan(c, p, 0) == FaceScan(c, p, 1);
  }
}
