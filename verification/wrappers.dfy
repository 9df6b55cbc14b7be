/** Option and Result, used throughout the model. */
module Wrappers {

  /** An optional value: a JSON field that may be absent from a request. */
  datatype Option<+T> = None | Some(value: T) {

    /** The present value, or `default` when the field was absent. */
    function GetOr(default: T): T {
      match this
      case Some(v) => v
      case None => default
    }
  }

  /** The outcome of an endpoint: a value, or the error the endpoint reports. */
  datatype Result<+T, +E> = Ok(value: T) | Err(error: E)
}
