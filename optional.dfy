/** The library's `Optional`: `Empty` or `Value(value)`, with its
    combinators. */
module Optionals {
  import opened Outcomes

  datatype Optional<+T> = Empty | Value(value: T)

  /** `Optional.of(v)` and `v.asOptional()`: `null` becomes `Empty`. */
  function Of<T>(v: Nullable<T>): (r: Optional<T>)
    ensures r.Empty? <==> v.Null?
    ensures r.Value? ==> r.value == v.value
  {
    match v
    case Null => Empty
    case NonNull(x) => Value(x)
  }

  /** `map(f)`: `f` is applied to a present value only. */
  function Map<T, B>(o: Optional<T>, f: T -> B): (r: Optional<B>)
    ensures r.Value? <==> o.Value?
    ensures o.Value? ==> r.value == f(o.value)
  {
    match o
    case Empty => Empty
    case Value(v) => Value(f(v))
  }

  /** `mapEmpty(f)`: presence is inverted; an absent value is replaced by `f()`. */
  function MapEmpty<T, B>(o: Optional<T>, f: () -> B): (r: Optional<B>)
    ensures r.Value? <==> o.Empty?
    ensures r.Value? ==> r.value == f()
  {
    match o
    case Empty => Value(f())
    case Value(_) => Empty
  }

  /** `flatMap(f)`: `Empty` stays `Empty`; a present value is handed to `f`. */
  function FlatMap<T, B>(o: Optional<T>, f: T -> Optional<B>): (r: Optional<B>)
    ensures o.Empty? ==> r.Empty?
    ensures o.Value? ==> r == f(o.value)
  {
    match o
    case Empty => Empty
    case Value(v) => f(v)
  }

  /** `getOrThrow(f)`: the value, or the throwable that `f` builds. */
  function GetOrThrowWith<T>(o: Optional<T>, f: () -> Error): (r: Result<T>)
    ensures r.Success? <==> o.Value?
    ensures r.Success? ==> r.value == o.value
    ensures r.Failure? ==> r.error == f()
  {
    match o
    case Empty => Failure(f())
    case Value(v) => Success(v)
  }

  /** `getOrThrow()`: the value, or `NoSuchElementException`. */
  function GetOrThrow<T>(o: Optional<T>): (r: Result<T>)
    ensures r.Success? <==> o.Value?
    ensures r.Success? ==> r.value == o.value
    ensures r.Failure? ==> r.error == NoSuchElement
  {
    GetOrThrowWith(o, () => NoSuchElement)
  }

  /** `zip(other)`: both values paired, or `Empty` when either is absent. */
  function Zip<T, B>(o: Optional<T>, other: Optional<B>): (r: Optional<(T, B)>)
    ensures r.Value? <==> o.Value? && other.Value?
    ensures r.Value? ==> r.value == (o.value, other.value)
  {
    match o
    case Empty => Empty
    case Value(v) => FlatMap(other, (b: B) => Value((v, b)))
  }

  /** `getOrDefault(default)`. */
  function GetOrDefault<T>(o: Optional<T>, default: T): (r: T)
    ensures o.Empty? ==> r == default
    ensures o.Value? ==> r == o.value
  {
    match o
    case Empty => default
    case Value(v) => v
  }

  // Laws.

  /** `map` with the identity changes nothing; two maps fuse into one. */
  lemma MapFunctorLaws<T, B, C>(o: Optional<T>, f: T -> B, g: B -> C)
    ensures Map(o, (x: T) => x) == o
    ensures Map(Map(o, f), g) == Map(o, (x: T) => g(f(x)))
  {
  }

  /** `map(f)` is `flatMap` into a present value. */
  lemma MapIsFlatMap<T, B>(o: Optional<T>, f: T -> B)
    ensures Map(o, f) == FlatMap(o, (x: T) => Value(f(x)))
  {
  }

  /** `flatMap` with `Value` as unit is a monad: left and right identity and
      associativity. */
  lemma FlatMapMonadLaws<T, B, C>(v: T, o: Optional<T>, f: T -> Optional<B>, g: B -> Optional<C>)
    ensures FlatMap(Value(v), f) == f(v)
    ensures FlatMap(o, (x: T) => Value(x)) == o
    ensures FlatMap(FlatMap(o, f), g) == FlatMap(o, (x: T) => FlatMap(f(x), g))
  {
  }

  /** `mapEmpty` applied twice keeps presence and forgets the value. */
  lemma MapEmptyTwice<T, B, C>(o: Optional<T>, f: () -> B, g: () -> C)
    ensures MapEmpty(MapEmpty(o, f), g) == if o.Empty? then Empty else Value(g())
  {
  }

  /** `zip` is `flatMap` over the first and `map` over the second. */
  lemma ZipIsFlatMapOfMap<T, B>(o: Optional<T>, other: Optional<B>)
    ensures Zip(o, other) == FlatMap(o, (x: T) => Map(other, (y: B) => (x, y)))
  {
  }

  /** `getOrDefault` reads what `getOrThrow` returns, and falls back to the
      default exactly where `getOrThrow` throws. */
  lemma GetOrDefaultAgreesWithGetOrThrow<T>(o: Optional<T>, default: T)
    ensures GetOrThrow(o).Success? ==> GetOrDefault(o, default) == GetOrThrow(o).value
    ensures GetOrThrow(o).Failure? <==> (o.Empty? && GetOrDefault(o, default) == default)
  {
  }

  /** A non-null value wrapped by `of` is read back unchanged; `of(null)` throws. */
  lemma OfRoundTrip<T>(v: T)
    ensures GetOrThrow(Of(NonNull(v))) == Success(v)
    ensures GetOrThrow(Of<T>(Null)) == Failure(NoSuchElement)
  {
  }
}
