/** `Try<T>`: the value a computation returned, or the error it threw.
    Every callback may throw, so callbacks return a `Completion`; a member that
    lets the callback's exception escape returns a `Completion` too. */
module Tries {
  import opened Exceptions
  import opened Options

  /** `SuccessImpl` and `FailureImpl`. */
  datatype Try<T> = Success(value: T) | Failure(error: Error) {

    predicate IsSuccess() { Success? }

    predicate IsFailure() { Failure? }

    /** `get`: the value, or the stored error rethrown. */
    function Get(): (r: Completion<T>)
      ensures r.Returned? <==> IsSuccess()
      ensures TryOf(() => r) == this
    {
      match this
      case Success(v) => Returned(v)
      case Failure(e) => Threw(e)
    }

    function GetOrElse(other: () -> Completion<T>): (r: Completion<T>)
      ensures IsSuccess() ==> r == Get()
      ensures IsFailure() ==> r == other()
    {
      match this
      case Success(v) => Returned(v)
      case Failure(_) => other()
    }

    function OrElse(f: () -> Completion<Try<T>>): (r: Completion<Try<T>>)
      ensures IsSuccess() ==> r == Returned(this)
      ensures IsFailure() ==> r == f()
    {
      match this
      case Success(_) => Returned(this)
      case Failure(_) => f()
    }

    function Fold<U>(f: Error -> Completion<U>, s: T -> Completion<U>): (r: Completion<U>)
      ensures IsSuccess() ==> r == s(value)
      ensures IsFailure() ==> r == f(error)
    {
      match this
      case Success(v) => s(v)
      case Failure(e) => f(e)
    }

    /** `transform` is `fold` with callbacks that give a `Try`. */
    function Transform<U>(s: T -> Completion<Try<U>>, f: Error -> Completion<Try<U>>): (r: Completion<Try<U>>)
      ensures r == Fold(f, s)
    {
      match this
      case Success(v) => s(v)
      case Failure(e) => f(e)
    }

    /** `forEach`: the callback's side effect is a transformer of the caller's state `st`. */
    function ForEach<S>(f: (S, T) -> Completion<S>, st: S): (r: Completion<S>)
      ensures IsFailure() ==> r == Returned(st)
      ensures IsSuccess() ==> r == f(st, value)
    {
      match this
      case Success(v) => f(st, v)
      case Failure(_) => Returned(st)
    }

    /** `filter`: a rejected value becomes a `Failure` holding a fresh plain `Error`. */
    function Filter(f: T -> Completion<bool>): (r: Completion<Try<T>>)
      ensures IsFailure() ==> r == Returned(this)
      ensures r.Returned? && r.value.IsSuccess() ==> r.value == this && f(value) == Returned(true)
      ensures IsSuccess() ==> (r.Threw? <==> f(value).Threw?)
    {
      match this
      case Success(v) =>
        (match f(v)
         case Returned(keep) => Returned(if keep then this else Failure(PlainError("")))
         case Threw(e) => Threw(e))
      case Failure(_) => Returned(this)
    }

    function FlatMap<U>(f: T -> Completion<Try<U>>): (r: Completion<Try<U>>)
      ensures IsFailure() ==> r == Returned(Failure(error))
      ensures IsSuccess() ==> r == f(value)
    {
      match this
      case Success(v) => f(v)
      case Failure(e) => Returned(Failure(e))
    }

    /** `map` does not catch: an exception of `f` escapes the call. */
    function Map<U>(f: T -> Completion<U>): (r: Completion<Try<U>>)
      ensures IsFailure() ==> r == Returned(Failure(error))
      ensures IsSuccess() ==> (r.Returned? <==> f(value).Returned?)
      ensures r.Returned? && r.value.IsSuccess() ==> IsSuccess() && f(value) == Returned(r.value.value)
    {
      match this
      case Success(v) =>
        (match f(v)
         case Returned(u) => Returned(Success(u))
         case Threw(e) => Threw(e))
      case Failure(e) => Returned(Failure(e))
    }

    /** `recover` wraps the handler in the `Try` factory, so it never throws. */
    function Recover(f: Error -> Completion<T>): (r: Try<T>)
      ensures IsSuccess() ==> r == this
      ensures IsFailure() ==> (r.IsSuccess() <==> f(error).Returned?)
      ensures IsFailure() ==> r.Get() == f(error)
    {
      match this
      case Success(_) => this
      case Failure(e) => TryOf(() => f(e))
    }

    function RecoverWith(f: Error -> Completion<Try<T>>): (r: Completion<Try<T>>)
      ensures IsSuccess() ==> r == Returned(this)
      ensures IsFailure() ==> r == f(error)
    {
      match this
      case Success(_) => Returned(this)
      case Failure(e) => f(e)
    }

    function ToOption(): (r: Option<T>)
      ensures r.NonEmpty() <==> IsSuccess()
      ensures r.NonEmpty() ==> Get() == Returned(r.value)
    {
      match this
      case Success(v) => Some(v)
      case Failure(_) => None
    }
  }

  /** The `Try(f)` factory: catches whatever `f` throws. */
  function TryOf<T>(f: () -> Completion<T>): (r: Try<T>)
    ensures r.IsSuccess() <==> f().Returned?
    ensures r.IsSuccess() ==> f() == Returned(r.value)
    ensures r.IsFailure() ==> f() == Threw(r.error)
  {
    match f()
    case Returned(v) => Success(v)
    case Threw(e) => Failure(e)
  }

  /** The factory is inverted by `get`: running a `Try` rethrows exactly what was caught. */
  lemma TryOfGetRoundTrip<T>(f: () -> Completion<T>)
    ensures TryOf(f).Get() == f()
  {
  }

  /** `recover` and `recoverWith` leave a `Success` as it is, whatever the handler. */
  lemma RecoverOnSuccess<T>(v: T, f: Error -> Completion<T>, g: Error -> Completion<Try<T>>)
    ensures Success(v).Recover(f) == Success(v)
    ensures Success(v).RecoverWith(g) == Returned(Success(v))
  {
  }

  /** `recover` on `Failure(e)` is `Try(() => f(e))`; `recoverWith` is `f(e)`. */
  lemma RecoverOnFailure<T>(e: Error, f: Error -> Completion<T>, g: Error -> Completion<Try<T>>)
    ensures Failure(e).Recover(f) == TryOf(() => f(e))
    ensures Failure(e).RecoverWith(g) == g(e)
    ensures f(e).Returned? ==> Failure(e).Recover(f) == Success(f(e).value)
    ensures f(e).Threw? ==> Failure(e).Recover(f) == Failure(f(e).error)
  {
  }

  /** `Try(() => throw E).recover(f) == Try(() => f(E))` and `Try(() => v).recover(f) == Try(() => v)`. */
  lemma RecoverOfFactory<T>(err: Error, v: T, f: Error -> Completion<T>)
    ensures TryOf(() => Threw(err)).Recover(f) == TryOf(() => f(err))
    ensures TryOf(() => Returned(v)).Recover(f) == TryOf(() => Returned(v))
  {
  }

  /** `map` and `flatMap` keep a `Failure`'s error; `map` on `Success` lets `f`'s exception escape. */
  lemma MapFlatMapSpec<T, U>(t: Try<T>, f: T -> Completion<U>, g: T -> Completion<Try<U>>)
    ensures t.IsFailure() ==> t.Map(f) == Returned(Failure(t.error)) && t.FlatMap(g) == Returned(Failure(t.error))
    ensures t.IsSuccess() && f(t.value).Threw? ==> t.Map(f) == Threw(f(t.value).error)
    ensures t.IsSuccess() && f(t.value).Returned? ==> t.Map(f) == Returned(Success(f(t.value).value))
    ensures t.IsSuccess() ==> t.FlatMap(g) == g(t.value)
  {
  }

  /** On a callback that returns normally, `map` is the factory applied to the callback. */
  lemma MapIsFactoryWhenNoThrow<T, U>(v: T, f: T -> Completion<U>)
    requires f(v).Returned?
    ensures Success(v).Map(f) == Returned(TryOf(() => f(v)))
  {
  }

  lemma MapIdentity<T>(t: Try<T>)
    ensures t.Map(x => Returned(x)) == Returned(t)
  {
  }

  lemma FlatMapLeftIdentity<T, U>(v: T, f: T -> Completion<Try<U>>)
    ensures Success(v).FlatMap(f) == f(v)
  {
  }

  lemma FlatMapRightIdentity<T>(t: Try<T>)
    ensures t.FlatMap(x => Returned(Success(x))) == Returned(t)
  {
  }

  /** `filter` fails a `Success` whose predicate is false and leaves a `Failure` alone. */
  lemma FilterSpec<T>(t: Try<T>, p: T -> Completion<bool>)
    ensures t.IsFailure() ==> t.Filter(p) == Returned(t)
    ensures t.IsSuccess() && p(t.value) == Returned(true) ==> t.Filter(p) == Returned(t)
    ensures t.IsSuccess() && p(t.value) == Returned(false) ==> t.Filter(p) == Returned(Failure(PlainError("")))
    ensures t.IsSuccess() && p(t.value).Threw? ==> t.Filter(p) == Threw(p(t.value).error)
  {
  }

  /** `get` rethrows the stored error; `getOrElse` and `orElse` consult the fallback only on `Failure`. */
  lemma GetAndFallbackSpec<T>(t: Try<T>, other: () -> Completion<T>, alt: () -> Completion<Try<T>>)
    ensures t.IsFailure() ==> t.Get() == Threw(t.error)
    ensures t.IsSuccess() ==> t.GetOrElse(other) == t.Get() == Returned(t.value)
    ensures t.IsFailure() ==> t.GetOrElse(other) == other()
    ensures t.IsSuccess() ==> t.OrElse(alt) == Returned(t)
    ensures t.IsFailure() ==> t.OrElse(alt) == alt()
  {
  }

  /** `fold` and `transform` pick an arm; `toOption` is `Some` exactly on `Success`. */
  lemma FoldTransformToOptionSpec<T, U>(t: Try<T>, f: Error -> Completion<U>, s: T -> Completion<U>,
                                        s': T -> Completion<Try<U>>, f': Error -> Completion<Try<U>>)
    ensures t.IsSuccess() ==> t.Fold(f, s) == s(t.value) && t.Transform(s', f') == s'(t.value)
    ensures t.IsFailure() ==> t.Fold(f, s) == f(t.error) && t.Transform(s', f') == f'(t.error)
    ensures t.ToOption().NonEmpty() <==> t.IsSuccess()
    ensures t.IsSuccess() ==> t.ToOption() == Some(t.value)
  {
  }

  lemma IsSuccessIsNotFailure<T>(t: Try<T>)
    ensures t.IsSuccess() != t.IsFailure()
  {
  }
}
