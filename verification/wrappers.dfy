/** The Option and Result types the model shares: an optional value (the
    JSON `null` of the server) and a success-or-error result of a handler. */
module Wrappers {

  datatype Option<+T> = None | Some(value: T)

  datatype Result<+R, +E> = Ok(value: R) | Err(error: E)
}
