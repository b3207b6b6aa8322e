/** Option and Result, used for JavaScript's `undefined`/`null` and for thrown errors. */
module Wrappers {

  datatype Option<+T> = None | Some(value: T) {
    function GetOr(default: T): T {
      match this
      case Some(v) => v
      case None => default
    }
  }

  /** `Success` is a value a promise resolves to, `Failure` the message of the error it rejects with. */
  datatype Result<+R, +E> = Success(value: R) | Failure(error: E)
}
