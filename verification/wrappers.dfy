/** Optional values and results, standing in for JavaScript's `undefined`/`null`
    and for thrown errors. */
module Wrappers {

  datatype Option<+T> = None | Some(value: T) {

    /** The value, or `default` when absent (JavaScript's `x ?? default`). */
    function GetOr(default: T): T {
      match this
      case Some(v) => v
      case None => default
    }
  }

  /** A call that either returns a value or throws an error carrying a message. */
  datatype Result<+R, +E> = Success(value: R) | Failure(error: E)
}
