/** Optional values and fallible results, shared by every module of the model. */
module Wrappers {

  /** A value that may be absent: the model's reading of JavaScript's `undefined`/`null`. */
  datatype Option<+T> = None | Some(value: T) {

    /** The carried value, or `default` when there is none (JavaScript's `x ?? default`). */
    function GetOr(default: T): T {
      match this
      case Some(v) => v
      case None => default
    }
  }

  /** The outcome of an operation that can fail: a value, or an error that the source throws. */
  datatype Result<+T, +E> = Ok(value: T) | Err(error: E)
}
