/** Failure-carrying value types shared by the whole model: an optional value
    (Swift's `T?`), a value-or-error result (a `throws` function's outcome) and a
    pass-or-error outcome (a `throws` function returning nothing). */
module Wrappers {

  datatype Option<+T> = None | Some(value: T)

  datatype Result<+R, +E> = Success(value: R) | Failure(error: E)

  datatype Outcome<+E> = Pass | Fail(error: E)
}
