/** Failure-carrying values shared by the other modules. */
module Wrappers {

  datatype Option<+T> = None | Some(value: T)

  /** A Python call that either returns a value or raises an exception with a message. */
  datatype Result<+T> = Ok(value: T) | Err(message: string)
}
