// Option and Result: absent values and the error exits of the engine's
// routines (quit(), thrown exceptions, early returns that report failure).
module Wrappers {
  datatype Option<+T> = None | Some(value: T)

  datatype Result<+T> = Ok(value: T) | Err(msg: string)
}
