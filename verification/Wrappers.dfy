/** The Some/None and success/failure types the other modules share. */
module Wrappers {
  datatype Option<+T> = None | Some(value: T) {
    /** The value as a sequence of length at most one. */
    function ToSeq(): seq<T> {
      if Some? then [value] else []
    }
  }

  datatype Result<+R, +E> = Success(value: R) | Failure(error: E)
}
