/** Optional values (JavaScript's null/undefined) and results that may carry a thrown error. */
module Wrappers {

  /** A value that may be absent: None stands for both null and undefined. */
  datatype Option<T> = None | Some(value: T) {

    /** The value, or `default` when absent (JavaScript's `x ?? default`). */
    function GetOr(default: T): T {
      if Some? then value else default
    }
  }

  /** The outcome of a computation that may throw an Error with a message. */
  datatype Result<T> = Ok(value: T) | Failure(message: string)
}
