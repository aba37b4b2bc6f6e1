/** Failure-compatible wrappers shared by the whole model:
    - Option<T> stands for a Kotlin nullable value (`T?`),
    - Result<T, E> stands for a computation that either returns or throws `E`.
 */
module Wrappers {

  /** A Kotlin nullable: `None` is `null`. */
  datatype Option<+T> = None | Some(value: T) {

    /** Kotlin's elvis operator `this ?: default`. */
    function GetOr(default: T): T {
      match this
      case Some(v) => v
      case None => default
    }
  }

  /** Either a value or the exception that was thrown instead. */
  datatype Result<+T, +E> = Ok(value: T) | Err(error: E)
}
