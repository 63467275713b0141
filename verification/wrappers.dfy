/** Failure-carrying values used where the application returns an optional
    value or throws an error. */
module Wrappers {

  /** A value that may be absent (Swift's `Optional`). */
  datatype Option<+T> = None | Some(value: T) {
    function GetOr(default: T): T {
      match this
      case Some(v) => v
      case None => default
    }
  }

  /** Either a value or the error a throwing call would raise. */
  datatype Result<+R, +E> = Success(value: R) | Failure(error: E)
}
