/** Optional and fallible results shared by every module of the model. */
module Wrappers {

  /** A value that may be missing: `null` in a TypeScript result type, or an
      optional parameter that was not passed. */
  datatype Option<+T> = None | Some(value: T)

  /** The outcome of an operation that may throw. */
  datatype Result<+T, +E> = Success(value: T) | Failure(error: E)
}
