/** Option, Result and Outcome: a C# null becomes `None`, a thrown exception becomes `Failure`/`Fail`. */
module Wrappers {

  datatype Option<+T> = None | Some(value: T) {

    /** The value, or `default` when there is none (C#'s `x ?? default` for a final value). */
    function GetOr(default: T): T {
      match this
      case Some(v) => v
      case None => default
    }

    /** C#'s null-coalescing `x ?? other` when both sides may be null. */
    function OrElse(other: Option<T>): Option<T> {
      match this
      case Some(_) => this
      case None => other
    }
  }

  datatype Result<+R, +E> = Success(value: R) | Failure(error: E)

  datatype Outcome<+E> = Pass | Fail(error: E)
}
