/**
 * The two vocabulary types of the C++ standard library that the division
 * examples return: `std::optional<T>` (engaged or `nullopt`) and
 * `std::expected<T, E>` (a value or an unexpected error). The monadic
 * operations of `std::optional` are written as the C++23 library defines
 * them, with the continuations as Dafny functions.
 */
module StdTypes {

  datatype Optional<+T> = Nullopt | Some(value: T)
  {
    /** `opt.and_then(f)`: `f(*opt)` when engaged; otherwise `nullopt`,
        and `f` is not invoked. */
    function AndThen<U>(f: T --> Optional<U>): (r: Optional<U>)
      requires Some? ==> f.requires(value)
      ensures Nullopt? ==> r == Nullopt
      ensures Some? ==> r == f(value)
    {
      match this
      case Nullopt => Nullopt
      case Some(v) => f(v)
    }

    /** `opt.transform(f)`: an optional holding `f(*opt)` when engaged;
        otherwise `nullopt`. */
    function Transform<U>(f: T --> U): (r: Optional<U>)
      requires Some? ==> f.requires(value)
      ensures Nullopt? ==> r == Nullopt
      ensures Some? ==> r == Some(f(value))
    {
      match this
      case Nullopt => Nullopt
      case Some(v) => Some(f(v))
    }

    /** `opt.or_else(f)`: `opt` itself when engaged; otherwise `f()`. */
    function OrElse(f: () -> Optional<T>): (r: Optional<T>)
      ensures Nullopt? ==> r == f()
      ensures Some? ==> r == this
    {
      match this
      case Nullopt => f()
      case Some(_) => this
    }
  }

  /** `std::expected<T, E>`: holds exactly one of a value and an error. */
  datatype Expected<+T, +E> = Value(value: T) | Unexpected(error: E)
}
