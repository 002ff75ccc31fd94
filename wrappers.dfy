/** Option and Result values shared by the whole model: `undefined` in the
    source becomes `None`, a thrown `Error` becomes `Failure(message)`. */
module Wrappers {

  datatype Option<+T> = None | Some(value: T) {
    function GetOr(default: T): T {
      match this
      case Some(v) => v
      case None => default
    }
  }

  datatype Result<+R, +E> = Success(value: R) | Failure(error: E)
}
