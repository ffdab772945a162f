/** Option and Result, standing for JavaScript's null/undefined and thrown errors. */
module Wrappers {

  datatype Option<+T> = None | Some(value: T) {
    function GetOr(default: T): T {
      match this
      case Some(v) => v
      case None => default
    }
  }

  /** `Err` carries the message of the `Error` the source throws. */
  datatype Result<+T> = Ok(value: T) | Err(message: string)
}
