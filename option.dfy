/** `Option<T>`: a value or its absence, built from a nullable JavaScript value. */
module Options {
  import opened Exceptions

  /** A JavaScript value of type `T | null | undefined`. */
  datatype Nullable<T> = Null | Undefined | Val(value: T)

  /** `SomeImpl` and `NoneImpl`. Every member is total; only `Get` can throw. */
  datatype Option<T> = None | Some(value: T) {

    predicate IsEmpty() { None? }

    predicate NonEmpty() { Some? }

    /** `get`: the held value, or a thrown `NoSuchElementException`. */
    function Get(): (r: Completion<T>)
      ensures r.Returned? <==> NonEmpty()
      ensures r.Returned? ==> r.value == value
      ensures r.Threw? ==> r.error == NoSuchElement
    {
      match this
      case Some(v) => Returned(v)
      case None => Threw(NoSuchElement)
    }

    /** `getOrElse`: the supplier is evaluated only when empty. */
    function GetOrElse(other: () -> T): (r: T)
      ensures NonEmpty() ==> Get() == Returned(r)
      ensures IsEmpty() ==> r == other()
    {
      match this
      case Some(v) => v
      case None => other()
    }

    /** `orNull`: the factory gives the option back, and the result is never `undefined`. */
    function OrNull(): (r: Nullable<T>)
      ensures FromNullable(r) == this
      ensures r != Undefined
    {
      match this
      case Some(v) => Val(v)
      case None => Null
    }

    /** `orUndefined`: the factory gives the option back, and the result is never `null`. */
    function OrUndefined(): (r: Nullable<T>)
      ensures FromNullable(r) == this
      ensures r != Null
    {
      match this
      case Some(v) => Val(v)
      case None => Undefined
    }

    /** `orElse`: a non-empty option returns itself. */
    function OrElse(f: () -> Option<T>): (r: Option<T>)
      ensures NonEmpty() ==> r == this
      ensures IsEmpty() ==> r == f()
    {
      match this
      case Some(_) => this
      case None => f()
    }

    /** `fold` is `map` followed by `getOrElse`. */
    function Fold<U>(ifEmpty: () -> U, f: T -> U): (r: U)
      ensures r == Map(f).GetOrElse(ifEmpty)
    {
      match this
      case Some(v) => f(v)
      case None => ifEmpty()
    }

    /** `forEach`: the callback's side effect is a transformer of the caller's state `s`. */
    function ForEach<S>(f: (S, T) -> S, s: S): (r: S)
      ensures IsEmpty() ==> r == s
      ensures NonEmpty() ==> r == f(s, ToArray()[0])
    {
      match this
      case Some(v) => f(s, v)
      case None => s
    }

    function Filter(f: T -> bool): (r: Option<T>)
      ensures r.NonEmpty() <==> NonEmpty() && f(value)
      ensures r.NonEmpty() ==> r == this
    {
      match this
      case Some(v) => if f(v) then this else None
      case None => this
    }

    function FlatMap<U>(f: T -> Option<U>): (r: Option<U>)
      ensures IsEmpty() ==> r.IsEmpty()
      ensures NonEmpty() ==> r == f(value)
    {
      match this
      case Some(v) => f(v)
      case None => None
    }

    function Map<U>(f: T -> U): (r: Option<U>)
      ensures r.NonEmpty() == NonEmpty()
      ensures NonEmpty() ==> r.value == f(value)
    {
      match this
      case Some(v) => Some(f(v))
      case None => None
    }

    function ToArray(): (r: seq<T>)
      ensures |r| <= 1 && (r == [] <==> IsEmpty())
      ensures r != [] ==> Some(r[0]) == this
    {
      match this
      case Some(v) => [v]
      case None => []
    }
  }

  /** The `Option(value)` factory: empty exactly for `null` and `undefined`. */
  function FromNullable<T>(v: Nullable<T>): (r: Option<T>)
    ensures r.IsEmpty() <==> (v == Null || v == Undefined)
    ensures r.NonEmpty() ==> v == Val(r.value)
  {
    if v == Null || v == Undefined then None else Some(v.value)
  }

  /** `OrNull` and `OrUndefined` are inverted by the factory. */
  lemma NullableRoundTrip<T>(o: Option<T>)
    ensures FromNullable(o.OrNull()) == o
    ensures FromNullable(o.OrUndefined()) == o
    ensures o.NonEmpty() ==> o.OrNull() == o.OrUndefined() == Val(o.value)
  {
  }

  /** `get` succeeds exactly on `Some` and raises `NoSuchElement` exactly on `None`. */
  lemma GetSpec<T>(o: Option<T>, v: T)
    ensures o.Get() == Returned(v) <==> o == Some(v)
    ensures o.Get() == Threw(NoSuchElement) <==> o.IsEmpty()
  {
  }

  /** `getOrElse` ignores the supplier on `Some` and returns its result on `None`. */
  lemma GetOrElseSpec<T>(o: Option<T>, other: () -> T, other': () -> T)
    ensures o.NonEmpty() ==> o.GetOrElse(other) == o.GetOrElse(other') == o.value
    ensures o.IsEmpty() ==> o.GetOrElse(other) == other()
    ensures o.NonEmpty() ==> o.Get() == Returned(o.GetOrElse(other))
  {
  }

  /** `Option(null).getOrElse(() => 42) == 42` and `Option(7).getOrElse(() => 42) == 7`. */
  lemma GetOrElseScenario()
    ensures FromNullable<int>(Null).GetOrElse(() => 42) == 42
    ensures FromNullable<int>(Undefined).GetOrElse(() => 42) == 42
    ensures FromNullable(Val(7)).GetOrElse(() => 42) == 7
  {
  }

  lemma IsEmptyIsNotNonEmpty<T>(o: Option<T>)
    ensures o.IsEmpty() == !o.NonEmpty()
    ensures |o.ToArray()| == (if o.NonEmpty() then 1 else 0)
    ensures o.NonEmpty() ==> o.ToArray()[0] == o.value
  {
  }

  /** `fold` picks the empty arm or the value arm; `orElse` on `Some` is the identity. */
  lemma FoldAndOrElseSpec<T, U>(o: Option<T>, ifEmpty: () -> U, f: T -> U, alt: () -> Option<T>)
    ensures o.Fold(ifEmpty, f) == (if o.NonEmpty() then f(o.value) else ifEmpty())
    ensures o.NonEmpty() ==> o.OrElse(alt) == o
    ensures o.IsEmpty() ==> o.OrElse(alt) == alt()
  {
  }

  /** `filter` keeps `Some(v)` exactly when the predicate holds of `v`. */
  lemma FilterSpec<T>(o: Option<T>, p: T -> bool, v: T)
    ensures o.Filter(p) == Some(v) <==> o == Some(v) && p(v)
    ensures o.IsEmpty() ==> o.Filter(p).IsEmpty()
    ensures o.Filter(p).Filter(p) == o.Filter(p)
  {
  }

  lemma MapFlatMapOnNone<T, U>(f: T -> U, g: T -> Option<U>)
    ensures None.Map(f) == None
    ensures None.FlatMap(g) == None
  {
  }

  lemma MapIdentity<T>(o: Option<T>)
    ensures o.Map(x => x) == o
  {
  }

  lemma MapComposition<T, U, W>(o: Option<T>, f: T -> U, g: U -> W)
    ensures o.Map(f).Map(g) == o.Map(x => g(f(x)))
  {
  }

  /** `map f` is `flatMap` of `Some` after `f`. */
  lemma MapIsFlatMapOfSome<T, U>(o: Option<T>, f: T -> U)
    ensures o.Map(f) == o.FlatMap(x => Some(f(x)))
  {
  }

  lemma FlatMapLeftIdentity<T, U>(v: T, f: T -> Option<U>)
    ensures Some(v).FlatMap(f) == f(v)
  {
  }

  lemma FlatMapRightIdentity<T>(o: Option<T>)
    ensures o.FlatMap(x => Some(x)) == o
  {
  }

  lemma FlatMapAssociative<T, U, W>(o: Option<T>, f: T -> Option<U>, g: U -> Option<W>)
    ensures o.FlatMap(f).FlatMap(g) == o.FlatMap(x => f(x).FlatMap(g))
  {
  }

  /** `forEach` calls back once with the value on `Some`, never on `None`, like `toArray`. */
  lemma ForEachVisitsToArray<T>(o: Option<T>, log: seq<T>)
    ensures o.ForEach((s: seq<T>, x: T) => s + [x], log) == log + o.ToArray()
  {
  }
}
