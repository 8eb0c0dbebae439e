/** Failure-carrying values used in place of the thrown errors and the
    `undefined` reads of the modelled TypeScript code. */
module Wrappers {

  /** A value that may be absent (`undefined` in the source). */
  datatype Option<+T> = None | Some(value: T)

  /** Either a computed value or the error that the source would throw. */
  datatype Result<+R, +E> = Success(value: R) | Failure(error: E)
}
