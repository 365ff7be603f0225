/** Option and Result values used where the code returns "nothing" or raises. */
module Outcomes {

  datatype Option<+T> = None | Some(value: T)

  /** A computation that either yields a value or fails with the message
      the exception would carry (`str(e)`). */
  datatype Result<+T> = Ok(value: T) | Err(message: string)
}
