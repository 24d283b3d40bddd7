/** Option and Result values, standing in for JavaScript's null/undefined and for error paths. */
module Wrappers {

  /** A value that may be absent (null or undefined in the component). */
  datatype Option<+T> = None | Some(value: T) {

    /** The value, or a default when there is none. */
    function GetOr(default: T): T {
      match this
      case Some(v) => v
      case None => default
    }
  }

  /** The outcome of an operation that either produces a value or reports what went wrong. */
  datatype Result<+T, +E> = Ok(value: T) | Err(error: E)
}
