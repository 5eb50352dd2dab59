/** Failure-carrying values used throughout the model: `Option` for Python's
    `None`-or-value, `Result` for an operation that either produces a value or
    fails with a message (a caught exception in the original code). */
module Wrappers {

  datatype Option<+T> = None | Some(value: T) {

    /** The wrapped value, or `default` when there is none. */
    function GetOr(default: T): T {
      match this
      case Some(v) => v
      case None => default
    }
  }

  datatype Result<+R, +E> = Success(value: R) | Failure(error: E)
}
