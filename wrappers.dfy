/** Option and Result: a lookup that can miss, and an operation that can throw. */
module Wrappers {

  datatype Option<+T> = None | Some(value: T) {

    /** The value, or `default` when absent (JavaScript's `x ?? default`). */
    function GetOr(default: T): T {
      match this
      case Some(v) => v
      case None => default
    }
  }

  /** The outcome of an operation of the source that either returns or throws an Error with a message. */
  datatype Result<+R, +E> = Success(value: R) | Failure(error: E)
}
