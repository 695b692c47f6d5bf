/** Failure-carrying values shared by the model's modules. */
module Wrappers {

  datatype Option<T> = None | Some(value: T) {
    function GetOr(default: T): (v: T) {
      match this
      case Some(v) => v
      case None => default
    }
  }

  datatype Result<T, E> = Ok(value: T) | Err(error: E)
}
