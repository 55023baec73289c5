/** Option and Result shapes shared by every module of the model. */
module Wrappers {

  /** `undefined`/`null` versus a present value. */
  datatype Option<+T> = None | Some(value: T) {
    function GetOr(default: T): T {
      match this
      case Some(v) => v
      case None => default
    }
  }

  /** A value, or the error that the source throws or reports instead. */
  datatype Result<+T, +E> = Success(value: T) | Failure(error: E)
}
