/** Option and Result, the failure-carrying datatypes the rest of the model uses
    in place of JavaScript's `null`/`undefined` and of thrown errors. */
module Wrappers {

  datatype Option<+T> = None | Some(value: T) {

    /** Returns the value in Some, or `default` for None. */
    function GetOr(default: T): T {
      match this
      case Some(v) => v
      case None => default
    }
  }

  datatype Result<+R, +E> = Success(value: R) | Failure(error: E)
}
