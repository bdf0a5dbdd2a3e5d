/** The optional value used wherever the source returns `None` or a value. */
module Wrappers {

  datatype Option<+T> = None | Some(value: T)

  /** An error path: the source raises, the model returns `Failure`. */
  datatype Result<+R, +E> = Success(value: R) | Failure(error: E)
}
