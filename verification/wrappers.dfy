/** Optional values and failures, the two shapes Java expresses with `null`
    and with thrown exceptions. */
module Wrappers {

  /** A Java reference that may be `null`: `None` stands for `null`. */
  datatype Option<+T> = None | Some(value: T) {

    /** The held value, or `default` for `null` (the `x == null ? d : x` idiom). */
    function GetOr(default: T): T {
      match this
      case Some(v) => v
      case None => default
    }
  }

  /** The outcome of a call that either returns normally or throws. */
  datatype Result<+T, +E> = Success(value: T) | Failure(error: E)
}
