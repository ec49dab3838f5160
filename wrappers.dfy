/** Option and Result: the shapes of JavaScript's "a record or null" and
    "a value or a thrown Error" in this model. */
module Wrappers {

  datatype Option<+T> = None | Some(value: T) {
    /** The wrapped value, or `default` when there is none. */
    function GetOr(default: T): T {
      match this
      case Some(v) => v
      case None => default
    }
  }

  /** The outcome of a store call: the value it resolves with, or the
      message of the Error it throws. */
  datatype Result<+T> = Success(value: T) | Failure(error: string)
}
