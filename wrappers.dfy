/** Option and outcome types shared by the modules of the WIP grid model. */
module Wrappers {

  /** A value that may be absent (TypeScript `T | undefined`). */
  datatype Option<+T> = None | Some(value: T) {
    function GetOr(default: T): T {
      match this
      case Some(v) => v
      case None => default
    }
  }

  /** The settled result of a call into the server: a resolved value, or a
      rejection. `message` is the `Error.message` of a thrown `Error`, or None
      when something other than an `Error` was thrown. */
  datatype Outcome<+T> = Ok(value: T) | Err(message: Option<string>)
}
