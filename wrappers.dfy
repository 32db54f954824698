/** Option and Result values used for the source's `Option` and for its
    panics and error returns. */
module Wrappers {

  datatype Option<+T> = None | Some(value: T)

  /** `Err` carries the message the source panics or bails with. */
  datatype Result<+T> = Ok(value: T) | Err(message: string)
}
