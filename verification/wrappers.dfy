/** Failure-compatible wrappers shared by the whole model. */
module Wrappers {

  /** A value that may be missing; `None` also stands for JavaScript's `undefined`. */
  datatype Option<+T> = None | Some(value: T)

  /** The outcome of a parse: the parsed value or the reasons it was refused. */
  datatype Result<+R, +E> = Success(value: R) | Failure(error: E)
}
