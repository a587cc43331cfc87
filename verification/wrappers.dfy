/** Optional values and results of operations that can throw. */
module Wrappers {

  /** A value that may be absent, as an optional JavaScript parameter. */
  datatype Option<+T> = None | Some(value: T) {

    /** The value, or `default` when it is absent (a parameter's default value). */
    function GetOr(default: T): T {
      match this
      case Some(v) => v
      case None => default
    }
  }

  /** The outcome of an operation that either returns a value or throws an error. */
  datatype Result<+R, +E> = Success(value: R) | Failure(error: E)
}
