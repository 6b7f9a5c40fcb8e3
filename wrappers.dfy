/** Failure-carrying return values: `undefined` results and thrown errors of the source. */
module Wrappers {

  /** A value that may be absent: JavaScript's `undefined`. */
  datatype Option<+T> = None | Some(value: T)

  /** The outcome of an operation that may throw an error carrying a message. */
  datatype Result<+T> = Failure(error: string) | Success(value: T)
}
