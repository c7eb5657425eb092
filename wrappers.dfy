/** Failure-compatible wrappers shared by the other modules. */
module Wrappers {

  /** A value that may be missing: Python's `None` versus a present value. */
  datatype Option<+T> = None | Some(value: T) {
    function GetOr(default: T): T {
      match this
      case Some(v) => v
      case None => default
    }
  }

  /** The outcome of an operation that can fail with an error the caller sees. */
  datatype Result<+R, +E> = Success(value: R) | Failure(error: E)
}
