/** Option and result types standing for the C# null results and exceptions. */
module Wrappers {

  /** A value or its absence; `None` stands for a C# `null` reference. */
  datatype Option<+T> = None | Some(value: T)

  /** A successful value or the exception that aborted the computation. */
  datatype Result<+T, +E> = Success(value: T) | Failure(error: E)
}
