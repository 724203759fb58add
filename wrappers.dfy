/** Option and Result values used for Python's `None` and for raised exceptions. */
module Wrappers {

  /** `None` or a present value (Python's `Optional[...]`). */
  datatype Option<+T> = None | Some(value: T)

  /** A computation that either produced a value or raised an error. */
  datatype Result<+R, +E> = Success(value: R) | Failure(error: E)
}
