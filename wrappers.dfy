/** Optional values and Python-style failures shared by every module of the model. */
module Wrappers {

  /** A value that may be absent: a missing dictionary key, a `None`. */
  datatype Option<+T> = None | Some(value: T) {
    function GetOr(default: T): T
    {
      match this
      case Some(v) => v
      case None => default
    }
  }

  /** The Python exception classes the modelled code can raise. */
  datatype Failure =
    | AssertionError
    | KeyError
    | TypeError
    | ValueError
    | IndexError

  /** Either the value an operation returns or the exception it raises. */
  datatype Result<+T> = Ok(value: T) | Err(error: Failure)
}
