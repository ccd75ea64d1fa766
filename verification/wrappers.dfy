/** The optional and error-carrying results every operation of the model
    returns in place of Python's None and raised exceptions. */
module Wrappers {

  /** A value, or the source's None. */
  datatype Option<+T> = None | Some(value: T) {

    function GetOr(default: T): T {
      match this
      case Some(v) => v
      case None => default
    }
  }

  /** A value, or the exception the source would raise. */
  datatype Result<+T, +E> = Ok(value: T) | Err(error: E)
}
