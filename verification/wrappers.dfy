/** Option and Result types shared by the model. */
module Wrappers {

  /** A value that may be absent; here `None` means "the draw stream ran out
      before the simulated loop stopped". */
  datatype Option<+T> = None | Some(value: T)

  /** The outcome of an operation that raises an error in the Python code. */
  datatype Result<+R, +E> = Success(value: R) | Failure(error: E)
}
