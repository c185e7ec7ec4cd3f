// Option and Result, used for nullable columns and for the exceptions the services throw.
module Wrappers {
  datatype Option<+T> = None | Some(value: T)

  datatype Result<+T, +E> = Ok(value: T) | Err(error: E)
}
