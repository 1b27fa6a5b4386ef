/** Option and Result, the two failure-compatible wrappers the model uses for Kotlin's
    nullable values and for the exceptions the compiler throws. */
module Wrappers {

  datatype Option<T> = None | Some(value: T) {
    /** Kotlin's `x ?: fallback`. */
    function GetOr(fallback: T): T {
      match this
      case Some(v) => v
      case None => fallback
    }
  }

  datatype Result<T, E> = Ok(value: T) | Err(error: E)
}
