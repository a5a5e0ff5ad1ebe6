/** Option and Result, used for the values a JavaScript call may leave `null`
    or `undefined`, and for calls that either return a value or throw. */
module Wrappers {

  datatype Option<+T> = None | Some(value: T)

  /** `Failure(e)` stands for a thrown `Error` whose `message` is `e`. */
  datatype Result<+R, +E> = Success(value: R) | Failure(error: E)
}
