/** Options and results, used in place of Python's None and exceptions. */
module Wrappers {
  datatype Option<+T> = None | Some(value: T) {
    function GetOr(default: T): T {
      if None? then default else value
    }
  }

  datatype Result<+T, +E> = Success(value: T) | Failure(error: E)
}
