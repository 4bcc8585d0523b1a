/** Optional values and results shared by the builder and the publisher. */
module Wrappers {

  /** A value that may be absent (a JavaScript `undefined`/`null`). */
  datatype Option<+T> = None | Some(value: T) {

    /** The carried value, or `default` when absent (JavaScript's `??`). */
    function GetOr(default: T): T {
      match this
      case Some(v) => v
      case None => default
    }
  }

  /** Either a computed value or the reason a task run stopped. */
  datatype Result<+R, +E> = Ok(value: R) | Err(error: E)
}
