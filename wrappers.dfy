/** Option and Result: the absent value and the error path of the journal. */
module Wrappers {

  /** A value that may be absent (Python's None). */
  datatype Option<+T> = None | Some(value: T)

  /** Either a value or the error an operation raised. */
  datatype Result<+R, +E> = Success(value: R) | Failure(error: E)

  /** An operation that returns nothing and may raise an error. */
  datatype Outcome<+E> = Pass | Fail(error: E)
}
