/** Absent values, and the error returns that stand for the source's HTTPException and other raises. */
module Wrappers {
  datatype Option<+T> = None | Some(value: T)

  datatype Result<+T, +E> = Ok(value: T) | Err(error: E)
}
