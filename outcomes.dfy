/** Failure-carrying wrappers shared by the other modules. */
module Outcomes {

  /** A value that may be absent (a missing or NaN cell). */
  datatype Option<+T> = None | Some(value: T) {
    function GetOr(default: T): T {
      match this
      case Some(v) => v
      case None => default
    }
  }

  /** The outcome of an operation that can raise. */
  datatype Result<+R, +E> = Success(value: R) | Failure(error: E)
}
