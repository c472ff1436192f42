/** Option and Result: JavaScript's `null`/`undefined` and the handlers' early error returns. */
module Wrappers {

  datatype Option<+T> = None | Some(value: T)

  datatype Result<+T, +E> = Ok(value: T) | Err(error: E)
}
