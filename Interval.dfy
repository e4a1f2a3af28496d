/** Closed and open interval tests over bounds that may be infinite. */
module Intervals {

  /** A float bound: a real number or one of the two infinities. */
  datatype ExtReal = NegInf | Finite(r: real) | PosInf

  /** Strict order on extended reals. */
  predicate Lt(a: ExtReal, b: ExtReal)
  {
    match (a, b)
    case (NegInf, NegInf) => false
    case (NegInf, _) => true
    case (Finite(x), Finite(y)) => x < y
    case (Finite(_), PosInf) => true
    case _ => false
  }

  predicate Le(a: ExtReal, b: ExtReal)
  {
    a == b || Lt(a, b)
  }

  /** `max(a, b)`. */
  function Max(a: ExtReal, b: ExtReal): (m: ExtReal)
    ensures Le(a, m) && Le(b, m)
    ensures m == a || m == b
  {
    if Lt(a, b) then b else a
  }

  /** `min(a, b)`. */
  function Min(a: ExtReal, b: ExtReal): (m: ExtReal)
    ensures Le(m, a) && Le(m, b)
    ensures m == a || m == b
  {
    if Lt(b, a) then b else a
  }

  /** An interval with a lower and an upper bound; the constructor's defaults make it empty. */
  datatype Interval = Interval(min: ExtReal, max: ExtReal)
  {
    /** `min <= x <= max`: only a non-empty interval contains anything, and
        it contains every value it surrounds. */
    predicate Contains(x: real): (b: bool)
      ensures b ==> Le(min, max)
      ensures Surrounds(x) ==> b
    {
      Le(min, Finite(x)) && Le(Finite(x), max)
    }

    /** `min < x < max`: only an interval with `min < max` surrounds anything. */
    predicate Surrounds(x: real): (b: bool)
      ensures b ==> Lt(min, max)
    {
      Lt(min, Finite(x)) && Lt(Finite(x), max)
    }
  }

  /** `empty`; also what `Interval()` builds with both arguments omitted. */
  const Empty: Interval := Interval(PosInf, NegInf)

  const Universe: Interval := Interval(NegInf, PosInf)

  /** A finite interval `Interval(lo, hi)`. */
  function Between(lo: real, hi: real): (i: Interval)
    ensures forall x :: i.Contains(x) <==> lo <= x <= hi
    ensures forall x :: i.Surrounds(x) <==> lo < x < hi
  {
    Interval(Finite(lo), Finite(hi))
  }

  lemma LtTransitive(a: ExtReal, b: ExtReal, c: ExtReal)
    requires Lt(a, b) && Lt(b, c)
    ensures Lt(a, c)
  {
  }

  lemma LtLeTransitive(a: ExtReal, b: ExtReal, c: ExtReal)
    requires Lt(a, b) && Le(b, c)
    ensures Lt(a, c)
  {
  }

  lemma LeLtTransitive(a: ExtReal, b: ExtReal, c: ExtReal)
    requires Le(a, b) && Lt(b, c)
    ensures Lt(a, c)
  {
  }

  /** The order is total: of two bounds one is below the other or they are equal. */
  lemma LtTotal(a: ExtReal, b: ExtReal)
    ensures Lt(a, b) || a == b || Lt(b, a)
  {
  }

  lemma LtIrreflexive(a: ExtReal)
    ensures !Lt(a, a)
  {
  }

  /** Every value strictly inside the interval is also in its closure. */
  lemma SurroundsImpliesContains(i: Interval, x: real)
    ensures i.Surrounds(x) ==> i.Contains(x)
  {
  }

  /** A finite endpoint is contained but never surrounded. */
  lemma Endpoints(i: Interval, x: real)
    requires Le(i.min, i.max)
    requires i.min == Finite(x) || i.max == Finite(x)
    ensures i.Contains(x)
    ensures !i.Surrounds(x)
  {
  }

  /** The default (empty) interval holds nothing. */
  lemma EmptyHoldsNothing(x: real)
    ensures !Empty.Contains(x) && !Empty.Surrounds(x)
  {
  }

  /** The universe holds every finite value. */
  lemma UniverseHoldsEverything(x: real)
    ensures Universe.Contains(x) && Universe.Surrounds(x)
  {
  }

  /** An interval with max below min is empty. */
  lemma ReversedIsEmpty(i: Interval, x: real)
    requires Lt(i.max, i.min)
    ensures !i.Contains(x)
  {
  }
}
