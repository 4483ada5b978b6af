/** Failure-compatible result types shared by every module of the model. */
module Wrappers {

  /** An optional value: the model's counterpart of Python's `dict.get` returning `None`. */
  datatype Option<+T> = None | Some(value: T)

  /** A computation that either produces a value or fails with an error
      (the model's counterpart of a raised exception). */
  datatype Result<+T, +E> = Ok(value: T) | Err(error: E)
}
