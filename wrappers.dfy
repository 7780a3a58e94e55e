/** Option, Result and Outcome, standing for Go's nil, `(value, error)` and `error` returns. */
module Wrappers {

  /** An optional value; None stands for Go's nil. */
  datatype Option<+T> = None | Some(value: T)

  /** A value or an error: Go's `(T, error)` pair where exactly one is meaningful. */
  datatype Result<+R, +E> = Success(value: R) | Failure(error: E)

  /** An error return with no value: Go's `error`, Pass being nil. */
  datatype Outcome<+E> = Pass | Fail(error: E)
}
