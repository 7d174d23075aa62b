/** Option and Result datatypes shared by the model. */
module Wrappers {

  /** A value that may be absent (`undefined` in the web part). */
  datatype Option<+T> = None | Some(value: T) {
    function GetOr(default: T): T {
      match this
      case Some(v) => v
      case None => default
    }
  }

  /** The outcome of a remote call: a value, or a rejected promise. */
  datatype Result<+T> = Success(value: T) | Failure(error: string)
}
