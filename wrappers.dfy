/** Failure-carrying values: `None` for Python's None / JavaScript's null and
    undefined, `Err` for a caught exception or an error payload. */
module Wrappers {

  datatype Option<+T> = None | Some(value: T) {
    function GetOr(default: T): T {
      match this
      case Some(v) => v
      case None => default
    }
  }

  datatype Result<+T> = Ok(value: T) | Err(message: string)
}
