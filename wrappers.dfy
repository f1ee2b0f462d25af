/** Option and Result values, used where the source returns null or throws. */
module Wrappers {

  datatype Option<+T> = None | Some(value: T)

  datatype Result<+T, +E> = Success(value: T) | Failure(error: E)

  /** The C# `??` operator on two optional values followed by a mandatory one. */
  function Coalesce<T>(first: Option<T>, second: Option<T>, fallback: T): (r: T)
    ensures first.Some? ==> r == first.value
    ensures first.None? && second.Some? ==> r == second.value
    ensures first.None? && second.None? ==> r == fallback
  {
    match first
    case Some(v) => v
    case None => match second
      case Some(v) => v
      case None => fallback
  }
}
