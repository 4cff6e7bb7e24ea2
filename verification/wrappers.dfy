/** Optional values and results with an error, shared by the other modules. */
module Wrappers {

  /** A value that may be absent (JavaScript's `null` or `undefined`). */
  datatype Option<+T> = None | Some(value: T) {
    function GetOr(default: T): T {
      match this
      case Some(v) => v
      case None => default
    }
  }

  /** The outcome of an operation that either yields a value or throws with an error. */
  datatype Result<+R, +E> = Success(value: R) | Failure(error: E)
}
