/** Wrappers used across the model: an optional value and a result that is
    either a value or an error. */
module Wrappers {

  /** A value that may be absent, as an optional property of a TypeScript object. */
  datatype Option<+T> = None | Some(value: T) {

    /** Returns the value, or `default` when there is none. */
    function GetOr(default: T): T {
      match this
      case Some(v) => v
      case None => default
    }
  }

  /** The outcome of an operation that either returns a value or throws. */
  datatype Result<+T, +E> = Success(value: T) | Failure(error: E)
}
