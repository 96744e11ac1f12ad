/** `Either<L, R>`: one of two alternatives, biased towards `Right`. */
module Eithers {
  import opened Options

  /** `LeftImpl` and `RightImpl`. */
  datatype Either<L, R> = Left(left: L) | Right(right: R) {

    predicate IsLeft() { Left? }

    predicate IsRight() { Right? }

    /** `getOrElse` agrees with `toOption().getOrElse`. */
    function GetOrElse(other: () -> R): (r: R)
      ensures r == ToOption().GetOrElse(other)
    {
      match this
      case Right(v) => v
      case Left(_) => other()
    }

    function Fold<U>(l: L -> U, r: R -> U): (u: U)
      ensures IsLeft() ==> u == l(left)
      ensures IsRight() ==> u == r(right)
    {
      match this
      case Left(v) => l(v)
      case Right(v) => r(v)
    }

    /** `forEach`: the callback's side effect is a transformer of the caller's state `s`. */
    function ForEach<S>(f: (S, R) -> S, s: S): (t: S)
      ensures t == ToOption().ForEach(f, s)
    {
      match this
      case Right(v) => f(s, v)
      case Left(_) => s
    }

    /** `filterOrElse` filters the right side as `Option.filter` does, putting `zero()` on the left. */
    function FilterOrElse(f: R -> bool, zero: () -> L): (r: Either<L, R>)
      ensures r.ToOption() == ToOption().Filter(f)
      ensures IsLeft() ==> r == this
      ensures IsRight() && !f(right) ==> r == Left(zero())
    {
      match this
      case Right(v) => if f(v) then this else Left(zero())
      case Left(_) => this
    }

    function FlatMap<U>(f: R -> Either<L, U>): (r: Either<L, U>)
      ensures IsLeft() ==> r == Left(left)
      ensures IsRight() ==> r == f(right)
    {
      match this
      case Right(v) => f(v)
      case Left(v) => Left(v)
    }

    /** `map` maps the right side as `Option.map` does and keeps a left value. */
    function Map<U>(f: R -> U): (r: Either<L, U>)
      ensures r.ToOption() == ToOption().Map(f)
      ensures IsLeft() ==> r == Left(left)
    {
      match this
      case Right(v) => Right(f(v))
      case Left(v) => Left(v)
    }

    function Swap(): (r: Either<R, L>)
      ensures r.IsLeft() == IsRight()
      ensures IsLeft() ==> r.right == left
      ensures IsRight() ==> r.left == right
    {
      match this
      case Right(v) => Left(v)
      case Left(v) => Right(v)
    }

    function ToOption(): (r: Option<R>)
      ensures r.NonEmpty() <==> IsRight()
      ensures r.NonEmpty() ==> r.value == right
    {
      match this
      case Right(v) => Some(v)
      case Left(_) => None
    }
  }

  /** Exactly one of `isLeft` and `isRight` holds. */
  lemma ExactlyOneSide<L, R>(e: Either<L, R>)
    ensures e.IsLeft() != e.IsRight()
  {
  }

  /** `swap` exchanges the two sides and undoes itself. */
  lemma SwapInvolution<L, R>(e: Either<L, R>)
    ensures e.Swap().Swap() == e
    ensures e.Swap().IsLeft() == e.IsRight()
    ensures e.IsLeft() ==> e.Swap() == Right(e.left)
    ensures e.IsRight() ==> e.Swap() == Left(e.right)
  {
  }

  /** `map` and `flatMap` keep a `Left` as it is and apply `f` to a `Right` value. */
  lemma MapFlatMapSpec<L, R, U>(e: Either<L, R>, f: R -> U, g: R -> Either<L, U>)
    ensures e.IsLeft() ==> e.Map(f) == Left(e.left) && e.FlatMap(g) == Left(e.left)
    ensures e.IsRight() ==> e.Map(f) == Right(f(e.right)) && e.FlatMap(g) == g(e.right)
  {
  }

  lemma MapIdentity<L, R>(e: Either<L, R>)
    ensures e.Map(x => x) == e
  {
  }

  lemma FlatMapRightIdentity<L, R>(e: Either<L, R>)
    ensures e.FlatMap(x => Right(x)) == e
  {
  }

  lemma FlatMapAssociative<L, R, U, W>(e: Either<L, R>, f: R -> Either<L, U>, g: U -> Either<L, W>)
    ensures e.FlatMap(f).FlatMap(g) == e.FlatMap(x => f(x).FlatMap(g))
  {
  }

  /** `filterOrElse` demotes a right value failing the predicate to `Left(zero())`. */
  lemma FilterOrElseSpec<L, R>(e: Either<L, R>, p: R -> bool, zero: () -> L)
    ensures e.IsLeft() ==> e.FilterOrElse(p, zero) == e
    ensures e.IsRight() && p(e.right) ==> e.FilterOrElse(p, zero) == e
    ensures e.IsRight() && !p(e.right) ==> e.FilterOrElse(p, zero) == Left(zero())
  {
  }

  /** `toOption` is `Some` exactly on `Right`, and agrees with `getOrElse`. */
  lemma ToOptionSpec<L, R>(e: Either<L, R>, other: () -> R)
    ensures e.ToOption().NonEmpty() <==> e.IsRight()
    ensures e.ToOption().GetOrElse(other) == e.GetOrElse(other)
    ensures e.IsRight() ==> e.GetOrElse(other) == e.right
    ensures e.IsLeft() ==> e.GetOrElse(other) == other()
  {
  }

  /** `fold` applies `l` to a left value and `r` to a right value. */
  lemma FoldSpec<L, R, U>(e: Either<L, R>, l: L -> U, r: R -> U)
    ensures e.IsLeft() ==> e.Fold(l, r) == l(e.left)
    ensures e.IsRight() ==> e.Fold(l, r) == r(e.right)
    ensures e.Swap().Fold(r, l) == e.Fold(l, r)
  {
  }
}
