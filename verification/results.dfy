/**
 * `Result<Value>`: a success carrying a value or a failure carrying an error,
 * with projections, deconstruction into Swift error handling, and the
 * composition operators `map`, `flatMap`, `mapError` and `flatMapError`.
 * Both revisions of the library declare the same two cases and projections;
 * the newer one adds the composition operators.
 */
module Results {
  import opened Primitives
  import opened Errors

  datatype Result<+V> = Success(success: V) | Failure(failure: Error) {

    /** `value`: the payload of a success, `nil` for a failure. */
    function Value(): Option<V> {
      match this
      case Success(v) => Some(v)
      case Failure(_) => None
    }

    /** `error`: the error of a failure, `nil` for a success. */
    function Error(): Option<Errors.Error> {
      match this
      case Success(_) => None
      case Failure(e) => Some(e)
    }

    /** `deconstruct()`: returns the payload of a success, throws the error of a failure. */
    function Deconstruct(): Throwing<V> {
      match this
      case Success(v) => Returns(v)
      case Failure(e) => Throws(e)
    }

    /** `flatMap`: the transform's own result for a success; a failure is re-wrapped. */
    function FlatMap<T>(transform: V -> Result<T>): Result<T> {
      match this
      case Success(v) => transform(v)
      case Failure(e) => Failure(e)
    }

    /** `map`, defined through `flatMap` as in the source. */
    function Map<T>(transform: V -> T): Result<T> {
      FlatMap(v => Success(transform(v)))
    }

    /** `flatMapError`: the transform's own result for a failure; a success is re-wrapped. */
    function FlatMapError(transform: Errors.Error -> Result<V>): Result<V> {
      match this
      case Success(v) => Success(v)
      case Failure(e) => transform(e)
    }

    /** `mapError`, defined through `flatMapError` as in the source. */
    function MapError(transform: Errors.Error -> Errors.Error): Result<V> {
      FlatMapError(e => Failure(transform(e)))
    }
  }

  /** `init(value:)` (older revision: `init(_ value:)`). */
  function FromValue<V>(value: V): (r: Result<V>)
    ensures r.Value() == Some(value) && r.Error() == None
  {
    Success(value)
  }

  /** `init(error:)` (older revision: `init(_ error:)`). */
  function FromError<V>(error: Error): (r: Result<V>)
    ensures r.Error() == Some(error) && r.Value() == None
  {
    Failure(error)
  }

  /**
   * The `do { return .success(try ...) } catch { return .failure(error) }`
   * idiom callers use to turn a throwing call back into a `Result`.
   */
  function Catching<V>(t: Throwing<V>): Result<V> {
    match t
    case Returns(v) => Success(v)
    case Throws(e) => Failure(e)
  }

  /** Exactly one of `value` and `error` is present, and each gives back the stored payload. */
  lemma ValueXorError<V>(r: Result<V>)
    ensures r.Value().Some? <==> r.Success?
    ensures r.Error().Some? <==> r.Failure?
    ensures r.Value().Some? != r.Error().Some?
    ensures r.Value().Some? ==> r == Success(r.Value().value)
    ensures r.Error().Some? ==> r == Failure(r.Error().value)
  {
  }

  /** `deconstruct` returns a success's payload and throws a failure's exact error; catching undoes it. */
  lemma DeconstructRoundTrip<V>(r: Result<V>)
    ensures r.Success? ==> r.Deconstruct() == Returns(r.success)
    ensures r.Failure? ==> r.Deconstruct() == Throws(r.failure)
    ensures Catching(r.Deconstruct()) == r
  {
  }

  /** `map` applies the transform to a success and passes a failure through whatever the transform. */
  lemma MapCases<V, T>(v: V, e: Error, f: V -> T, g: V -> T)
    ensures Success(v).Map(f) == Success(f(v))
    ensures Failure(e).Map(f) == Failure(e) == Failure(e).Map(g)
  {
  }

  /** `flatMap` on a success is the transform's result, with no double wrapping; a failure keeps its error. */
  lemma FlatMapCases<V, T>(v: V, e: Error, f: V -> Result<T>)
    ensures Success(v).FlatMap(f) == f(v)
    ensures Failure(e).FlatMap(f) == Failure(e)
  {
  }

  /** Functor identity law: mapping the identity gives the original result. */
  lemma MapIdentity<V>(r: Result<V>)
    ensures r.Map(x => x) == r
  {
  }

  /** Functor composition law, through `map`'s definition by `flatMap`. */
  lemma MapComposition<A, B, C>(r: Result<A>, f: A -> B, g: B -> C)
    ensures r.Map(f).Map(g) == r.Map(x => g(f(x)))
  {
  }

  /** Monad associativity law for `flatMap`. */
  lemma FlatMapAssociative<A, B, C>(r: Result<A>, f: A -> Result<B>, g: B -> Result<C>)
    ensures r.FlatMap(f).FlatMap(g) == r.FlatMap(x => f(x).FlatMap(g))
  {
  }

  /** Monad unit laws: `success` is a left and right identity of `flatMap`. */
  lemma FlatMapUnit<A, B>(a: A, f: A -> Result<B>, r: Result<A>)
    ensures FromValue(a).FlatMap(f) == f(a)
    ensures r.FlatMap(x => Success(x)) == r
  {
  }

  /** `mapError` and `flatMapError` return a success unchanged, whatever the transform. */
  lemma ErrorTransformsKeepSuccess<V>(v: V, f: Error -> Error, h: Error -> Result<V>)
    ensures Success(v).MapError(f) == Success(v)
    ensures Success(v).FlatMapError(h) == Success(v)
  {
  }

  /** `flatMapError` on a failure is the handler's result, so a failure can be recovered into a success. */
  lemma FlatMapErrorRecovers<V>(e: Error, h: Error -> Result<V>, f: Error -> Error, v: V)
    ensures Failure(e).FlatMapError(h) == h(e)
    ensures Failure(e).FlatMapError(_ => Success(v)) == Success(v)
    ensures Result<V>.Failure(e).MapError(f) == Failure(f(e))
  {
  }
}
