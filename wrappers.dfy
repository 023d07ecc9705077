/** Optional values and success-or-error outcomes shared by the other modules. */
module Wrappers {

  /** A value that may be missing (a JavaScript property that is `undefined`). */
  datatype Option<+T> = None | Some(value: T)

  /** The outcome of an operation that may throw. */
  datatype Result<+R, +E> = Success(value: R) | Failure(error: E)
}
