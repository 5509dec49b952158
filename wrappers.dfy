/** Optional values and results with an error, shared by every module of the model. */
module Wrappers {

  /** Python's `None` or a present value. */
  datatype Option<+T> = None | Some(value: T)

  /** A computed value, or the error that stops the computation. */
  datatype Result<+R, +E> = Success(value: R) | Failure(error: E)
}
