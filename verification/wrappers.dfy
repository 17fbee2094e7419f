/** Failure-carrying wrappers shared by the parking model. */
module Wrappers {

  /** An optional value: a document field that may be absent. */
  datatype Option<+T> = None | Some(value: T) {

    /** The value, or `default` when absent. */
    function GetOr(default: T): T {
      match this
      case Some(v) => v
      case None => default
    }
  }

  /** The outcome of a handler: a value, or the error the handler answers with. */
  datatype Result<+R, +E> = Success(value: R) | Failure(error: E)
}
