/** Optional values and results with an error, as used throughout the model. */
module Wrappers {

  /** A value that may be absent: JavaScript's `null`/`undefined` next to a value. */
  datatype Option<+T> = None | Some(value: T) {

    /** The wrapped value, or `default` when there is none (JavaScript's `??`). */
    function GetOr(default: T): T {
      match this
      case Some(v) => v
      case None => default
    }
  }

  /** Either a value or an error, for code paths that stop with a message. */
  datatype Result<+R, +E> = Success(value: R) | Failure(error: E)
}
