/** The record a successful intersection fills in, the face-orientation rule,
    and the effect one `hit` call has on a record. The material type is a
    parameter so that the geometry does not depend on the materials. */
module HittableObject {
  import opened Errors
  import opened Vectors
  import opened Rays

  /** A complete intersection: every field of a record after a successful `hit`. */
  datatype Hit<M> = Hit(p: Vec3, normal: Vec3, material: M, t: real, frontFace: bool)

  /** The five fields of a record; `None` stands for Python's `None`. */
  datatype Fields<M> = Fields(p: Option<Vec3>, normal: Option<Vec3>, material: Option<M>,
                              t: Option<real>, frontFace: Option<bool>)

  /** The fields of a record that holds the hit `h`. */
  function Filled<M>(h: Hit<M>): (f: Fields<M>)
    ensures f.t == Some(h.t) && f.p == Some(h.p) && f.material == Some(h.material)
    ensures f.normal == Some(h.normal) && f.frontFace == Some(h.frontFace)
  {
    Fields(Some(h.p), Some(h.normal), Some(h.material), Some(h.t), Some(h.frontFace))
  }

  /** Whether every field of a record is set. */
  predicate Complete<M>(f: Fields<M>)
  {
    f.p.Some? && f.normal.Some? && f.material.Some? && f.t.Some? && f.frontFace.Some?
  }

  /** The hit a complete record holds. */
  function Held<M>(f: Fields<M>): (h: Hit<M>)
    requires Complete(f)
    ensures Filled(h) == f
  {
    Hit(f.p.value, f.normal.value, f.material.value, f.t.value, f.frontFace.value)
  }

  /** `set_face_normal`'s choice: the outward normal when the ray arrives from
      outside (a negative dot product), its negation otherwise. */
  function FaceNormal(dir: Vec3, outward: Vec3): (n: Vec3)
    ensures n == outward || n == Neg(outward)
    ensures Dot(dir, n) <= 0.0
    ensures (n == outward) <== (Dot(dir, outward) < 0.0)
  {
    if Dot(dir, outward) < 0.0 then outward else Neg(outward)
  }

  /** What one `hit` call does to the record it is given. */
  datatype Effect<M> =
    | Miss                                                   // returns False, record untouched
    | Found(hit: Hit<M>)                                     // returns True, all five fields written
    | Scribbled(t: real, p: Vec3, material: M, raised: Option<PyError>)
                                                             // t, p and material written, then
                                                             // False is returned or `raised` raised
    | Raised(error: PyError)                                 // raises, record untouched

  /** The value the call returns, or the exception it raises. */
  function Outcome<M>(e: Effect<M>): (r: Result<bool>)
    ensures r == Ok(true) <==> e.Found?
    ensures r.Err? <==> e.Raised? || (e.Scribbled? && e.raised.Some?)
  {
    match e
    case Miss => Ok(false)
    case Found(_) => Ok(true)
    case Scribbled(_, _, _, raised) => if raised.Some? then Err(raised.value) else Ok(false)
    case Raised(err) => Err(err)
  }

  /** The record's fields after the call, given those before it. */
  function Apply<M>(before: Fields<M>, e: Effect<M>): (after: Fields<M>)
    ensures e.Found? ==> after == Filled(e.hit)
    ensures e.Miss? || e.Raised? ==> after == before
    ensures e.Scribbled? ==> after.normal == before.normal && after.frontFace == before.frontFace
  {
    match e
    case Miss => before
    case Found(h) => Filled(h)
    case Scribbled(t, p, m, _) => before.(t := Some(t), p := Some(p), material := Some(m))
    case Raised(_) => before
  }

  /** A hit record: five fields that `hit` and `set_face_normal` assign in place. */
  class HitRecord<M> {
    var p: Option<Vec3>
    var normal: Option<Vec3>
    var material: Option<M>
    var t: Option<real>
    var frontFace: Option<bool>

    function Current(): Fields<M>
      reads this
    {
      Fields(p, normal, material, t, frontFace)
    }

    /** `HitRecord()`: every field None. */
    constructor ()
      ensures Current() == Fields(None, None, None, None, None)
    {
      p, normal, material, t, frontFace := None, None, None, None, None;
    }

    /** `HitRecord(p, normal, material, t, front_face)` with explicit values. */
    constructor Init(p0: Option<Vec3>, normal0: Option<Vec3>, material0: Option<M>,
                     t0: Option<real>, frontFace0: Option<bool>)
      ensures Current() == Fields(p0, normal0, material0, t0, frontFace0)
    {
      p, normal, material, t, frontFace := p0, normal0, material0, t0, frontFace0;
    }

    /** `set_face_normal(r, outward_normal)`: decides the face from the ray
        direction and stores the normal that opposes the ray. */
    method SetFaceNormal(r: Ray, outward: Vec3)
      modifies this
      ensures frontFace == Some(Dot(r.dir, outward) < 0.0)
      ensures normal == Some(FaceNormal(r.dir, outward))
      ensures p == old(p) && t == old(t) && material == old(material)
    {
      frontFace := Some(Dot(r.dir, outward) < 0.0);
      normal := Some(if frontFace.value then outward else Neg(outward));
    }
  }

  /** The face rule: the stored normal never points along the ray, and it is
      the outward normal exactly on a front face. */
  lemma FaceNormalOpposesRay(dir: Vec3, outward: Vec3)
    ensures Dot(dir, FaceNormal(dir, outward)) <= 0.0
    ensures Dot(dir, outward) < 0.0 <==> FaceNormal(dir, outward) == outward && Dot(dir, outward) != 0.0
  {
    if Dot(dir, outward) >= 0.0 && FaceNormal(dir, outward) == outward {
      assert Neg(outward) == outward;
      assert outward == Zero;
    }
  }
}
