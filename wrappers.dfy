/** Optional values (a missing dictionary key, a string that does not parse)
    and the results of library calls that may fail. */
module Wrappers {

  datatype Option<+T> = None | Some(value: T) {

    /** The value, or `default` when there is none (Python's `d.get(k, default)`). */
    function GetOr(default: T): T {
      match this
      case Some(v) => v
      case None => default
    }
  }

  /** The outcome of a library call that may raise: its value, or the text
      of the exception. */
  datatype Result<+T> = Success(value: T) | Failure(error: string)
}
