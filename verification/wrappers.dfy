/** Failure-carrying values shared by the whole model: a JavaScript
    `T | null` / `T | undefined` is an `Option<T>`, a call that may throw is a
    `Result<T>`. */
module Wrappers {

  datatype Option<+T> = None | Some(value: T) {
    function GetOr(default: T): T {
      match this
      case Some(v) => v
      case None => default
    }
  }

  /** The exceptions the modelled code raises or catches. */
  datatype Error =
    | ConstraintViolation   // a CHECK constraint rejected an inserted row
    | StorageFault          // the storage engine failed a write
    | NotFound              // an UPDATE matched no row where one was required

  datatype Result<+T> = Ok(value: T) | Err(error: Error)
}
