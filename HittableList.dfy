/** `HittableList`: a list of spheres and cubes, and its closest-hit scan,
    which queries every member with an upper bound that shrinks to the
    nearest hit found so far. */
module HittableLists {
  import opened Errors
  import opened Vectors
  import opened Intervals
  import opened Rays
  import opened HittableObject
  import opened Spheres
  import opened Cubes

  /** A member of a list: one of the two shapes the scenes build. */
  datatype Hittable<M> = SphereObject(sphere: Sphere<M>) | CubeObject(cube: Cube<M>)

  /** The effect of `object.hit(r, ray_t, rec)`, dispatched on the shape. */
  function HitEffect<M>(o: Hittable<M>, r: Ray, rayT: Interval, sqrt: real -> real): (e: Effect<M>)
    ensures o.SphereObject? ==> e.Miss? || e.Found?
    ensures e.Raised? || (e.Scribbled? && e.raised.Some?) ==> o.CubeObject?
  {
    match o
    case SphereObject(s) =>
      SphereNeverRaises(s, r, rayT, sqrt);
      Spheres.Intersect(s, r, rayT, sqrt)
    case CubeObject(c) => Cubes.Intersect(c, r, rayT)
  }

  /** `object.hit(r, ray_t, rec)` on the record in place. */
  method HitObject<M>(o: Hittable<M>, r: Ray, rayT: Interval, rec: HitRecord<M>, sqrt: real -> real)
    returns (res: Result<bool>)
    modifies rec
    ensures res == Outcome(HitEffect(o, r, rayT, sqrt))
    ensures rec.Current() == Apply(old(rec.Current()), HitEffect(o, r, rayT, sqrt))
  {
    match o
    case SphereObject(s) =>
      var found := Spheres.HitSphere(s, r, rayT, rec, sqrt);
      res := Ok(found);
    case CubeObject(c) =>
      res := HitCube(c, r, rayT, rec);
  }

  /** Every member reports a hit inside the interval it was asked about
      (`ray_t.min <= t`, strict for spheres; `t < ray_t.max` always). */
  lemma HitEffectBounds<M>(o: Hittable<M>, r: Ray, lo: ExtReal, hi: ExtReal, sqrt: real -> real)
    requires HitEffect(o, r, Interval(lo, hi), sqrt).Found?
    ensures Le(lo, Finite(HitEffect(o, r, Interval(lo, hi), sqrt).hit.t))
    ensures Lt(Finite(HitEffect(o, r, Interval(lo, hi), sqrt).hit.t), hi)
  {
    match o
    case SphereObject(s) => SphereHitRecord(s, r, Interval(lo, hi), sqrt);
    case CubeObject(c) => CubeBounds(c, r, Interval(lo, hi));
  }

  /** Lowering the upper bound to any value still above a reported hit
      leaves the member's effect unchanged. */
  lemma HitEffectNarrower<M>(o: Hittable<M>, r: Ray, lo: ExtReal, hi: ExtReal, hi': ExtReal,
                             sqrt: real -> real)
    requires HitEffect(o, r, Interval(lo, hi), sqrt).Found?
    requires Le(hi', hi) && Lt(Finite(HitEffect(o, r, Interval(lo, hi), sqrt).hit.t), hi')
    ensures HitEffect(o, r, Interval(lo, hi'), sqrt) == HitEffect(o, r, Interval(lo, hi), sqrt)
  {
    match o
    case SphereObject(s) => SphereNarrowerKeepsHit(s, r, lo, hi, hi', sqrt);
    case CubeObject(c) => CubeNarrowerKeepsHit(c, r, lo, hi, hi');
  }

  /** Raising the upper bound leaves a reported hit unchanged. */
  lemma HitEffectWider<M>(o: Hittable<M>, r: Ray, lo: ExtReal, hi': ExtReal, hi: ExtReal,
                          sqrt: real -> real)
    requires IsSqrt(sqrt)
    requires HitEffect(o, r, Interval(lo, hi'), sqrt).Found?
    requires Le(hi', hi)
    ensures HitEffect(o, r, Interval(lo, hi), sqrt) == HitEffect(o, r, Interval(lo, hi'), sqrt)
  {
    match o
    case SphereObject(s) => SphereWiderKeepsHit(s, r, lo, hi', hi, sqrt);
    case CubeObject(c) => CubeWiderKeepsHit(c, r, lo, hi', hi);
  }

  /** `object.hit` for the shapes, as a function of the member and the interval. */
  function ShapeHit<M>(r: Ray, sqrt: real -> real): (Hittable<M>, Interval) -> Effect<M>
  {
    (o: Hittable<M>, iv: Interval) => HitEffect(o, r, iv, sqrt)
  }

  /** What the list needs of a member's `hit`: a reported `t` lies in the
      interval asked about, ... */
  ghost predicate ReportsInside<O(!new), M>(hit: (O, Interval) -> Effect<M>)
  {
    forall o, iv :: hit(o, iv).Found? ==>
      Le(iv.min, Finite(hit(o, iv).hit.t)) && Lt(Finite(hit(o, iv).hit.t), iv.max)
  }

  /** ... lowering the bound to a value still above a reported `t` changes nothing, ... */
  ghost predicate KeepsHitNarrowed<O(!new), M>(hit: (O, Interval) -> Effect<M>)
  {
    forall o, lo, hi, hi' ::
      hit(o, Interval(lo, hi)).Found? && Le(hi', hi) && Lt(Finite(hit(o, Interval(lo, hi)).hit.t), hi')
      ==> hit(o, Interval(lo, hi')) == hit(o, Interval(lo, hi))
  }

  /** ... and raising the bound above a reported hit changes nothing either. */
  ghost predicate KeepsHitWidened<O(!new), M>(hit: (O, Interval) -> Effect<M>)
  {
    forall o, lo, hi', hi ::
      hit(o, Interval(lo, hi')).Found? && Le(hi', hi)
      ==> hit(o, Interval(lo, hi)) == hit(o, Interval(lo, hi'))
  }

  /** Spheres and cubes meet all three (widening needs the square root to be one). */
  lemma ShapesBehave<M(!new)>(r: Ray, sqrt: real -> real)
    ensures ReportsInside(ShapeHit<M>(r, sqrt))
    ensures KeepsHitNarrowed(ShapeHit<M>(r, sqrt))
    ensures IsSqrt(sqrt) ==> KeepsHitWidened(ShapeHit<M>(r, sqrt))
  {
    var hit := ShapeHit<M>(r, sqrt);
    forall o, iv | hit(o, iv).Found?
      ensures Le(iv.min, Finite(hit(o, iv).hit.t)) && Lt(Finite(hit(o, iv).hit.t), iv.max)
    {
      assert iv == Interval(iv.min, iv.max);
      HitEffectBounds(o, r, iv.min, iv.max, sqrt);
    }
    forall o, lo, hi, hi' | hit(o, Interval(lo, hi)).Found? && Le(hi', hi)
                            && Lt(Finite(hit(o, Interval(lo, hi)).hit.t), hi')
      ensures hit(o, Interval(lo, hi')) == hit(o, Interval(lo, hi))
    {
      HitEffectNarrower(o, r, lo, hi, hi', sqrt);
    }
    if IsSqrt(sqrt) {
      forall o, lo, hi', hi | hit(o, Interval(lo, hi')).Found? && Le(hi', hi)
        ensures hit(o, Interval(lo, hi)) == hit(o, Interval(lo, hi'))
      {
        HitEffectWider(o, r, lo, hi', hi, sqrt);
      }
    }
  }

  /** The scan's variables after some members: `hit_anything`,
      `closest_so_far`, the fields of `rec`, and the exception that ended the
      scan, if one did. */
  datatype ScanState<M> = ScanState(hitAnything: bool, closest: ExtReal, rec: Fields<M>,
                                    raised: Option<PyError>)

  /** The scan over the first `n` members, starting from a record holding
      `start`. A raising member ends it; a reporting member lowers
      `closest_so_far` to its `t` and has its five fields copied. */
  function Scan<O, M>(objs: seq<O>, n: nat, hit: (O, Interval) -> Effect<M>, rayT: Interval,
                      start: Fields<M>): (s: ScanState<M>)
    requires n <= |objs|
    ensures n == 0 ==> s == ScanState(false, rayT.max, start, None)
    decreases n
  {
    if n == 0 then ScanState(false, rayT.max, start, None)
    else
      var prev := Scan(objs, n - 1, hit, rayT, start);
      if prev.raised.Some? then prev
      else
        Advance(prev, hit(objs[n - 1], Interval(rayT.min, prev.closest)))
  }

  /** One member's turn: a reported hit becomes the closest one and its
      fields are copied, an exception ends the scan, anything else leaves
      the scan as it was. */
  function Advance<M>(prev: ScanState<M>, e: Effect<M>): (next: ScanState<M>)
    ensures next.hitAnything == (prev.hitAnything || e.Found?)
    ensures next.raised.Some? <==> prev.raised.Some? || Outcome(e).Err?
  {
    if e.Found? then ScanState(true, Finite(e.hit.t), Filled(e.hit), prev.raised)
    else if Outcome(e).Err? then prev.(raised := Some(Outcome(e).error))
    else prev
  }

  /** The effect of the `j`-th member's call during the scan, on the
      interval `Interval(ray_t.min, closest_so_far)` it is given. */
  function Step<O, M>(objs: seq<O>, j: nat, hit: (O, Interval) -> Effect<M>, rayT: Interval,
                      start: Fields<M>): (e: Effect<M>)
    requires j < |objs|
  {
    hit(objs[j], Interval(rayT.min, Scan(objs, j, hit, rayT, start).closest))
  }

  /** A member that reports only hits inside the interval it is given
      reports, at step `j`, a `t` at or after `ray_t.min` and strictly
      before the closest hit found so far. */
  lemma StepInside<O(!new), M>(objs: seq<O>, j: nat, hit: (O, Interval) -> Effect<M>, rayT: Interval,
                               start: Fields<M>)
    requires j < |objs|
    requires ReportsInside(hit)
    ensures Step(objs, j, hit, rayT, start).Found? ==>
              Le(rayT.min, Finite(Step(objs, j, hit, rayT, start).hit.t)) &&
              Lt(Finite(Step(objs, j, hit, rayT, start).hit.t), Scan(objs, j, hit, rayT, start).closest)
  {
  }

  /** What `hit` returns, or the exception it propagates. */
  function ListOutcome<M>(s: ScanState<M>): (res: Result<bool>)
    ensures res.Err? <==> s.raised.Some?
    ensures res == Ok(true) <==> s.raised == None && s.hitAnything
  {
    if s.raised.Some? then Err(s.raised.value) else Ok(s.hitAnything)
  }

  /** A list of hittable objects, appended to and cleared in place. */
  class HittableList<M> {
    var objects: seq<Hittable<M>>

    /** `HittableList()`: an empty list. */
    constructor ()
      ensures objects == []
    {
      objects := [];
    }

    /** `clear()`. */
    method Clear()
      modifies this
      ensures objects == []
    {
      objects := [];
    }

    /** `add(o)`: appends at the end. */
    method Add(o: Hittable<M>)
      modifies this
      ensures objects == old(objects) + [o]
      ensures |objects| == |old(objects)| + 1 && objects[|objects| - 1] == o
      ensures forall i :: 0 <= i < |old(objects)| ==> objects[i] == old(objects)[i]
    {
      objects := objects + [o];
    }

    /** `hit(r, ray_t, rec)`: every member is asked with the bound lowered to
        the closest hit so far, into a scratch record whose fields are copied
        into `rec` after each reported hit. */
    method Hit(r: Ray, rayT: Interval, rec: HitRecord<M>, sqrt: real -> real) returns (res: Result<bool>)
      modifies rec
      ensures res == ListOutcome(Scan(objects, |objects|, ShapeHit(r, sqrt), rayT, old(rec.Current())))
      ensures rec.Current() == Scan(objects, |objects|, ShapeHit(r, sqrt), rayT, old(rec.Current())).rec
    {
      var temp := new HitRecord<M>.Init(Some(Zero), Some(Zero), None, None, None);
      var hitAnything := false;
      var closest := rayT.max;
      for i := 0 to |objects|
        invariant Scan(objects, i, ShapeHit(r, sqrt), rayT, old(rec.Current()))
                  == ScanState(hitAnything, closest, rec.Current(), None)
      {
        var found;
        found, hitAnything, closest := Visit(objects[i], r, rayT, temp, rec, sqrt, hitAnything, closest);
        if found.Err? {
          RaiseEndsScan(objects, i, ShapeHit(r, sqrt), rayT, old(rec.Current()));
          return Err(found.error);
        }
      }
      return Ok(hitAnything);
    }
  }

  /** One turn of the loop of `hit`: asks `o` about `Interval(ray_t.min,
      closest_so_far)` and, on True, takes its `t` and copies its fields. */
  method Visit<M>(o: Hittable<M>, r: Ray, rayT: Interval, temp: HitRecord<M>, rec: HitRecord<M>,
                  sqrt: real -> real, hitAnything: bool, closest: ExtReal)
    returns (found: Result<bool>, hitAnything': bool, closest': ExtReal)
    requires temp != rec
    modifies temp, rec
    ensures var next := Advance(ScanState(hitAnything, closest, old(rec.Current()), None),
                                ShapeHit(r, sqrt)(o, Interval(rayT.min, closest)));
            && found == Outcome(ShapeHit(r, sqrt)(o, Interval(rayT.min, closest)))
            && (found.Ok? ==> next == ScanState(hitAnything', closest', rec.Current(), None))
            && (found.Err? ==> next.raised == Some(found.error) && next.rec == rec.Current())
  {
    found := HitObject(o, r, Interval(rayT.min, closest), temp, sqrt);
    hitAnything', closest' := hitAnything, closest;
    if found == Ok(true) {
      hitAnything' := true;
      closest' := Finite(temp.t.value);
      CopyRecord(temp, rec);
    }
  }

  /** Copies `t`, `p`, `normal`, `front_face` and `material` from one record to another. */
  method CopyRecord<M>(from: HitRecord<M>, to: HitRecord<M>)
    modifies to
    ensures to.Current() == from.Current()
  {
    to.t := from.t;
    to.p := from.p;
    to.normal := from.normal;
    to.frontFace := from.frontFace;
    to.material := from.material;
  }

  /** Once a member raises, the scan's state is final. */
  lemma {:induction false} ScanStopsAtRaise<O, M>(objs: seq<O>, m: nat, n: nat,
                                                  hit: (O, Interval) -> Effect<M>, rayT: Interval,
                                                  start: Fields<M>)
    requires m <= n <= |objs|
    requires Scan(objs, m, hit, rayT, start).raised.Some?
    ensures Scan(objs, n, hit, rayT, start) == Scan(objs, m, hit, rayT, start)
    decreases n
  {
    if m < n {
      ScanStopsAtRaise(objs, m, n - 1, hit, rayT, start);
    }
  }

  /** A member that raises ends the scan with its exception, `rec` as it was. */
  lemma RaiseEndsScan<O, M>(objs: seq<O>, i: nat, hit: (O, Interval) -> Effect<M>, rayT: Interval,
                            start: Fields<M>)
    requires i < |objs|
    requires Scan(objs, i, hit, rayT, start).raised == None
    requires Outcome(Step(objs, i, hit, rayT, start)).Err?
    ensures Scan(objs, |objs|, hit, rayT, start)
            == Scan(objs, i, hit, rayT, start).(raised := Some(Outcome(Step(objs, i, hit, rayT, start)).error))
  {
    ScanStopsAtRaise(objs, i + 1, |objs|, hit, rayT, start);
  }

  /** A scan that did not raise did not raise on any shorter prefix either. */
  lemma PrefixDidNotRaise<O, M>(objs: seq<O>, m: nat, n: nat, hit: (O, Interval) -> Effect<M>,
                                rayT: Interval, start: Fields<M>)
    requires m <= n <= |objs|
    requires Scan(objs, n, hit, rayT, start).raised == None
    ensures Scan(objs, m, hit, rayT, start).raised == None
  {
    if Scan(objs, m, hit, rayT, start).raised.Some? {
      ScanStopsAtRaise(objs, m, n, hit, rayT, start);
    }
  }

  /** The record holds the fields of the last member that reported a hit
      during the scan, and `closest_so_far` is that hit's `t`. */
  ghost predicate LastHitAt<O, M>(objs: seq<O>, n: nat, j: nat, hit: (O, Interval) -> Effect<M>,
                                  rayT: Interval, start: Fields<M>)
    requires n <= |objs|
  {
    var s := Scan(objs, n, hit, rayT, start);
    && j < n
    && Step(objs, j, hit, rayT, start).Found?
    && s.rec == Filled(Step(objs, j, hit, rayT, start).hit)
    && s.closest == Finite(Step(objs, j, hit, rayT, start).hit.t)
    && forall k :: j < k < n ==> !Step(objs, k, hit, rayT, start).Found?
  }

  /** `hit` returns True exactly when some member's call returned True; then
      `rec` holds the last such member's fields, and otherwise `rec` and
      `closest_so_far` are as they started. */
  lemma {:induction false} ScanReportsLastHit<O, M>(objs: seq<O>, n: nat, hit: (O, Interval) -> Effect<M>,
                                                    rayT: Interval, start: Fields<M>)
    requires n <= |objs|
    requires Scan(objs, n, hit, rayT, start).raised == None
    ensures Scan(objs, n, hit, rayT, start).hitAnything
            <==> exists j :: 0 <= j < n && Step(objs, j, hit, rayT, start).Found?
    ensures Scan(objs, n, hit, rayT, start).hitAnything
            ==> exists j :: LastHitAt(objs, n, j, hit, rayT, start)
    ensures !Scan(objs, n, hit, rayT, start).hitAnything
            ==> Scan(objs, n, hit, rayT, start).rec == start
                && Scan(objs, n, hit, rayT, start).closest == rayT.max
    decreases n
  {
    if n > 0 {
      PrefixDidNotRaise(objs, n - 1, n, hit, rayT, start);
      ScanReportsLastHit(objs, n - 1, hit, rayT, start);
      if Step(objs, n - 1, hit, rayT, start).Found? {
        assert LastHitAt(objs, n, n - 1, hit, rayT, start);
      } else if Scan(objs, n - 1, hit, rayT, start).hitAnything {
        var j :| LastHitAt(objs, n - 1, j, hit, rayT, start);
        assert LastHitAt(objs, n, j, hit, rayT, start);
      }
    }
  }

  /** Once some member has reported a hit, every field of the record is set. */
  lemma {:induction false} ScanHitFillsRecord<O, M>(objs: seq<O>, n: nat, hit: (O, Interval) -> Effect<M>,
                                                    rayT: Interval, start: Fields<M>)
    requires n <= |objs|
    ensures Scan(objs, n, hit, rayT, start).hitAnything ==> Complete(Scan(objs, n, hit, rayT, start).rec)
    decreases n
  {
    if n > 0 {
      ScanHitFillsRecord(objs, n - 1, hit, rayT, start);
    }
  }

  /** The material a member was built with. */
  function MaterialOf<M>(o: Hittable<M>): M
  {
    match o
    case SphereObject(s) => s.material
    case CubeObject(c) => c.material
  }

  /** A reported hit carries the reporting member's material. */
  lemma HitEffectMaterial<M>(o: Hittable<M>, r: Ray, rayT: Interval, sqrt: real -> real)
    requires HitEffect(o, r, rayT, sqrt).Found?
    ensures HitEffect(o, r, rayT, sqrt).hit.material == MaterialOf(o)
  {
    match o
    case SphereObject(s) => SphereHitRecord(s, r, rayT, sqrt);
    case CubeObject(c) => CubeBounds(c, r, rayT);
  }

  /** After a scan that reported a hit, the record's material is that of
      one of the members, when every member reports its own material. */
  lemma ScanHitMaterial<O, M>(objs: seq<O>, n: nat, hit: (O, Interval) -> Effect<M>, rayT: Interval,
                              start: Fields<M>, materialOf: O -> M)
    requires n <= |objs|
    requires forall o, iv :: hit(o, iv).Found? ==> hit(o, iv).hit.material == materialOf(o)
    requires Scan(objs, n, hit, rayT, start).raised == None
    requires Scan(objs, n, hit, rayT, start).hitAnything
    ensures exists j :: 0 <= j < n && Scan(objs, n, hit, rayT, start).rec.material == Some(materialOf(objs[j]))
  {
    ScanReportsLastHit(objs, n, hit, rayT, start);
    var j: nat :| LastHitAt(objs, n, j, hit, rayT, start);
    assert Scan(objs, n, hit, rayT, start).rec.material == Some(materialOf(objs[j]));
  }

  /** The same for spheres and cubes: the record's material is one of the
      members' materials. */
  lemma ListHitMaterial<M>(objs: seq<Hittable<M>>, r: Ray, rayT: Interval, sqrt: real -> real,
                           start: Fields<M>)
    requires Scan(objs, |objs|, ShapeHit(r, sqrt), rayT, start).raised == None
    requires Scan(objs, |objs|, ShapeHit(r, sqrt), rayT, start).hitAnything
    ensures exists j :: 0 <= j < |objs|
              && Scan(objs, |objs|, ShapeHit(r, sqrt), rayT, start).rec.material == Some(MaterialOf(objs[j]))
  {
    var hit := ShapeHit<M>(r, sqrt);
    forall o, iv | hit(o, iv).Found?
      ensures hit(o, iv).hit.material == MaterialOf(o)
    {
      HitEffectMaterial(o, r, iv, sqrt);
    }
    ScanHitMaterial(objs, |objs|, hit, rayT, start, MaterialOf);
  }

  /** `closest_so_far` never rises while the scan goes on. */
  lemma {:induction false} ClosestNeverRises<O(!new), M>(objs: seq<O>, m: nat, n: nat,
                                                   hit: (O, Interval) -> Effect<M>, rayT: Interval,
                                                   start: Fields<M>)
    requires ReportsInside(hit)
    requires m <= n <= |objs|
    requires Scan(objs, n, hit, rayT, start).raised == None
    ensures Le(Scan(objs, n, hit, rayT, start).closest, Scan(objs, m, hit, rayT, start).closest)
    decreases n
  {
    if m < n {
      PrefixDidNotRaise(objs, n - 1, n, hit, rayT, start);
      ClosestNeverRises(objs, m, n - 1, hit, rayT, start);
      var prev := Scan(objs, n - 1, hit, rayT, start).closest;
      var e := Step(objs, n - 1, hit, rayT, start);
      if e.Found? {
        LtLeTransitive(Finite(e.hit.t), prev, Scan(objs, m, hit, rayT, start).closest);
      }
    }
  }

  /** Each hit reported during the scan lies strictly below every hit
      reported before it, so `closest_so_far` strictly decreases and the
      final `rec.t` is the smallest reported `t`. */
  lemma ReportedHitsDecrease<O(!new), M>(objs: seq<O>, n: nat, j: nat, k: nat,
                                   hit: (O, Interval) -> Effect<M>, rayT: Interval, start: Fields<M>)
    requires ReportsInside(hit)
    requires j < k < n <= |objs|
    requires Scan(objs, n, hit, rayT, start).raised == None
    requires Step(objs, j, hit, rayT, start).Found? && Step(objs, k, hit, rayT, start).Found?
    ensures Step(objs, k, hit, rayT, start).hit.t < Step(objs, j, hit, rayT, start).hit.t
  {
    PrefixDidNotRaise(objs, j + 1, n, hit, rayT, start);
    PrefixDidNotRaise(objs, k, n, hit, rayT, start);
    ClosestNeverRises(objs, j + 1, k, hit, rayT, start);
    LtLeTransitive(Finite(Step(objs, k, hit, rayT, start).hit.t), Scan(objs, k, hit, rayT, start).closest,
                   Scan(objs, j + 1, hit, rayT, start).closest);
  }

  /** The record holds the fields of member `k`'s hit on the whole interval,
      and no member hits the whole interval at a smaller `t`. */
  ghost predicate ClosestAt<O, M>(objs: seq<O>, n: nat, k: nat, hit: (O, Interval) -> Effect<M>,
                                  rayT: Interval, start: Fields<M>)
    requires n <= |objs|
  {
    var s := Scan(objs, n, hit, rayT, start);
    && k < n
    && hit(objs[k], rayT).Found?
    && s.rec == Filled(hit(objs[k], rayT).hit)
    && s.closest == Finite(hit(objs[k], rayT).hit.t)
    && forall j :: 0 <= j < n && hit(objs[j], rayT).Found? ==> hit(objs[k], rayT).hit.t <= hit(objs[j], rayT).hit.t
  }

  /** The scan finds the closest hit: it reports a hit exactly when some
      member, asked alone about the whole interval, would; and then `rec` is
      that member's hit with the smallest `t`. */
  lemma {:induction false} ScanFindsClosest<O(!new), M>(objs: seq<O>, n: nat, hit: (O, Interval) -> Effect<M>,
                                                  rayT: Interval, start: Fields<M>)
    requires ReportsInside(hit) && KeepsHitNarrowed(hit) && KeepsHitWidened(hit)
    requires n <= |objs|
    requires Scan(objs, n, hit, rayT, start).raised == None
    ensures Scan(objs, n, hit, rayT, start).hitAnything
            <==> exists j :: 0 <= j < n && hit(objs[j], rayT).Found?
    ensures Scan(objs, n, hit, rayT, start).hitAnything
            ==> exists k :: ClosestAt(objs, n, k, hit, rayT, start)
    ensures !Scan(objs, n, hit, rayT, start).hitAnything
            ==> Scan(objs, n, hit, rayT, start).rec == start
                && Scan(objs, n, hit, rayT, start).closest == rayT.max
    decreases n
  {
    if n > 0 {
      PrefixDidNotRaise(objs, n - 1, n, hit, rayT, start);
      ScanFindsClosest(objs, n - 1, hit, rayT, start);
      var prev := Scan(objs, n - 1, hit, rayT, start);
      if prev.hitAnything {
        var k :| ClosestAt(objs, n - 1, k, hit, rayT, start);
        ClosestStep(objs, n, k, hit, rayT, start);
      } else {
        assert Interval(rayT.min, prev.closest) == rayT;
        if hit(objs[n - 1], rayT).Found? {
          assert ClosestAt(objs, n, n - 1, hit, rayT, start);
        }
      }
    }
  }

  /** The inductive step of `ScanFindsClosest` when an earlier member already
      holds the closest hit `k`: the next member either beats it (and then
      its narrowed answer is its whole-interval answer) or cannot. */
  lemma ClosestStep<O(!new), M>(objs: seq<O>, n: nat, k: nat, hit: (O, Interval) -> Effect<M>,
                          rayT: Interval, start: Fields<M>)
    requires ReportsInside(hit) && KeepsHitNarrowed(hit) && KeepsHitWidened(hit)
    requires 0 < n <= |objs|
    requires Scan(objs, n, hit, rayT, start).raised == None
    requires ClosestAt(objs, n - 1, k, hit, rayT, start)
    ensures ClosestAt(objs, n, k, hit, rayT, start) || ClosestAt(objs, n, n - 1, hit, rayT, start)
  {
    var o := objs[n - 1];
    var tk := hit(objs[k], rayT).hit.t;
    var bound := Finite(tk);
    assert rayT == Interval(rayT.min, rayT.max);
    assert Le(bound, rayT.max);
    var e := hit(o, Interval(rayT.min, bound));
    if e.Found? {
      assert hit(o, Interval(rayT.min, rayT.max)) == e;
      assert ClosestAt(objs, n, n - 1, hit, rayT, start);
    } else {
      if hit(o, rayT).Found? && hit(o, rayT).hit.t < tk {
        assert false;
      }
      assert ClosestAt(objs, n, k, hit, rayT, start);
    }
  }

  /** A list whose members never raise never raises. */
  lemma {:induction false} QuietMembersNeverRaise<O(!new), M>(objs: seq<O>, n: nat, hit: (O, Interval) -> Effect<M>,
                                                        rayT: Interval, start: Fields<M>)
    requires n <= |objs|
    requires forall j, iv :: 0 <= j < n ==> Outcome(hit(objs[j], iv)).Ok?
    ensures Scan(objs, n, hit, rayT, start).raised == None
    decreases n
  {
    if n > 0 {
      QuietMembersNeverRaise(objs, n - 1, hit, rayT, start);
    }
  }

  /** The closest-hit property of `HittableList.hit` on spheres and cubes. */
  lemma ListFindsClosest<M(!new)>(objs: seq<Hittable<M>>, r: Ray, rayT: Interval, sqrt: real -> real,
                            start: Fields<M>)
    requires IsSqrt(sqrt)
    requires Scan(objs, |objs|, ShapeHit(r, sqrt), rayT, start).raised == None
    ensures Scan(objs, |objs|, ShapeHit(r, sqrt), rayT, start).hitAnything
            <==> exists j :: 0 <= j < |objs| && HitEffect(objs[j], r, rayT, sqrt).Found?
    ensures Scan(objs, |objs|, ShapeHit(r, sqrt), rayT, start).hitAnything
            ==> exists k :: ClosestAt(objs, |objs|, k, ShapeHit(r, sqrt), rayT, start)
  {
    ShapesBehave<M>(r, sqrt);
    ScanFindsClosest(objs, |objs|, ShapeHit(r, sqrt), rayT, start);
  }

  /** A list of spheres never raises. */
  lemma SpheresNeverRaise<M(!new)>(objs: seq<Hittable<M>>, r: Ray, rayT: Interval, sqrt: real -> real,
                             start: Fields<M>)
    requires forall j :: 0 <= j < |objs| ==> objs[j].SphereObject?
    ensures Scan(objs, |objs|, ShapeHit(r, sqrt), rayT, start).raised == None
  {
    QuietMembersNeverRaise(objs, |objs|, ShapeHit(r, sqrt), rayT, start);
  }
}
