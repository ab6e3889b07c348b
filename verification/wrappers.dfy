/** Failure-carrying datatypes used in place of Python's `None` defaults and exceptions. */
module Wrappers {

  /** A value that may be absent: a missing dictionary key, an undecodable document. */
  datatype Option<+T> = None | Some(value: T) {

    /** The value if present, the given default otherwise (Python's `dict.get(key, default)`). */
    function GetOr(default: T): T {
      match this
      case Some(v) => v
      case None => default
    }
  }

  /** The outcome of an operation that can raise: a value, or the error it raised. */
  datatype Result<+T, +E> = Success(value: T) | Failure(error: E)
}
