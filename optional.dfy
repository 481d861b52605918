/**
 * SynergyQuest's Optional<T>: an immutable value that may or may not wrap a value
 * (a lightweight Maybe). The struct's private (_value, _hasValue) pair is the datatype's
 * two cases.
 */
module Optionals {

  datatype Optional<T> = Some(value: T) | None
  {
    predicate IsSome()
    {
      Some?
    }

    predicate IsNone()
    {
      !IsSome()
    }

    /** Result-producing Match: `some(v)` for Some(v), `none()` for None. */
    function Match<R>(some: T -> R, none: () -> R): (r: R)
      ensures Some? ==> r == some(value)
      ensures None? ==> r == none()
    {
      if IsSome() then some(value) else none()
    }

    /** This instance when it holds a value, `other` otherwise. */
    function Else(other: Optional<T>): (r: Optional<T>)
      ensures r.IsSome() <==> IsSome() || other.IsSome()
      ensures IsSome() ==> r == this
      ensures IsNone() ==> r == other
    {
      if IsSome() then this else other
    }

    function Map<U>(mapper: T -> U): (r: Optional<U>)
      ensures r.IsSome() <==> IsSome()
      ensures r.IsSome() ==> r.value == mapper(value)
    {
      if IsSome() then Some(mapper(value)) else None
    }

    function ValueOr(alternative: T): (r: T)
      ensures Some? ==> r == value
      ensures None? ==> r == alternative
    {
      if IsSome() then value else alternative
    }

    predicate Fulfills(p: T -> bool)
      ensures Fulfills(p) <==> Some? && p(value)
    {
      if IsSome() then p(value) else false
    }
  }

  /** A null reference becomes None, any other reference Some. */
  function FromNullable(maybeValue: object?): (r: Optional<object>)
    ensures r.IsSome() <==> maybeValue != null
    ensures r.IsSome() ==> r.value == maybeValue
  {
    if maybeValue == null then None else var o: object := maybeValue; Some(o)
  }

  lemma SomeAndNone<T>(v: T)
    ensures Some(v).IsSome() && !Some(v).IsNone()
    ensures var n: Optional<T> := None; !n.IsSome() && n.IsNone()
  {
  }

  /** ValueOr, Fulfills and Match are all Map followed by ValueOr. */
  lemma EliminatorsAgree<T, R>(o: Optional<T>, f: T -> R, p: T -> bool, d: R, alt: T)
    ensures o.Match(f, () => d) == o.Map(f).ValueOr(d)
    ensures o.Fulfills(p) == o.Map(p).ValueOr(false)
    ensures o.ValueOr(alt) == o.Else(Some(alt)).value
  {
  }

  lemma MapLaws<T, U, W>(o: Optional<T>, f: T -> U, g: U -> W)
    ensures o.Map(x => x) == o
    ensures o.Map(f).Map(g) == o.Map(x => g(f(x)))
    ensures o.Map(f).IsSome() == o.IsSome()
  {
  }

  /** Else picks the first Some of a chain; None is its unit. */
  lemma ElseLaws<T>(a: Optional<T>, b: Optional<T>, c: Optional<T>)
    ensures a.Else(b).Else(c) == a.Else(b.Else(c))
    ensures a.Else(None) == a && None.Else(a) == a
    ensures a.Else(b).IsSome() <==> a.IsSome() || b.IsSome()
  {
  }
}
