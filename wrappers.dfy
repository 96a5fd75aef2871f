/** Optional values and results with an error, as the strategy's
    lookups and its throwing constructor need them. */
module Wrappers {

  /** A value that may be missing (JavaScript's `undefined`). */
  datatype Option<+T> = None | Some(value: T) {
    /** The value, or `default` when missing. */
    function GetOr(default: T): T {
      match this
      case Some(v) => v
      case None => default
    }
  }

  /** The outcome of an operation that may throw. */
  datatype Result<+R, +E> = Ok(value: R) | Err(error: E)
}
