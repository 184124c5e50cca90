/** Failure-compatible wrappers used throughout the model. */
module Wrappers {

  /** A value that may be absent: a Python `None`, a JavaScript `null`, or a NaN parse. */
  datatype Option<+T> = None | Some(value: T) {
    function GetOr(default: T): T {
      match this
      case Some(v) => v
      case None => default
    }
  }

  /** The outcome of an endpoint: its response body, or the HTTP error it raises. */
  datatype Result<+T, +E> = Success(value: T) | Failure(error: E)
}
