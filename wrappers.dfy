/** Failure-compatible wrappers shared by the models: a value that may be absent
    (a C# null reference) and a value or the exception raised instead. */
module Wrappers {

  datatype Option<+T> = None | Some(value: T)

  datatype Result<+T, +E> = Ok(value: T) | Err(error: E)
}
