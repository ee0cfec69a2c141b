/** Optional values and success-or-failure values, used wherever the Python code
    reads an optional field or lets an exception escape. */
module Wrappers {

  /** A value that may be absent (Python's `None`). */
  datatype Option<+T> = None | Some(value: T)

  /** The outcome of an operation that may raise. */
  datatype Result<+R, +E> = Ok(value: R) | Err(error: E)
}
