/** The two result shapes used across the project. */
module Outcomes {

  datatype Option<+T> = None | Some(value: T)

  /** A value, or the numeric error code the service raises. */
  datatype Result<+T> = Ok(value: T) | Err(code: nat)
}
