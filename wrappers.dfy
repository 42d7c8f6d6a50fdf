/** Option, Result and Outcome: the model's stand-ins for C# null and for thrown exceptions. */
module Wrappers {

  /** A value that may be null. */
  datatype Option<+T> = None | Some(value: T) {
    function GetOr(default: T): T {
      match this
      case Some(v) => v
      case None => default
    }
  }

  /** A computation that either returns a value or throws. */
  datatype Result<+T, +E> = Success(value: T) | Failure(error: E)

  /** A computation with no value that either completes or throws. */
  datatype Outcome<+E> = Pass | Fail(error: E)
}
