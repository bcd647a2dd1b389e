/** Small failure-carrying datatypes shared by the model. */
module Wrappers {

  /** A value that may be absent (Python's `None`, a missing dictionary entry). */
  datatype Option<+T> = None | Some(value: T)

  /** An operation that either produces a value or fails with an error. */
  datatype Result<+T, +E> = Ok(value: T) | Err(error: E)
}
