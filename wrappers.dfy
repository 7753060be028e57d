/** Success/failure wrappers used for optional fields and for the thrown error of the factory. */
module Wrappers {

  /** A value that may be absent, standing for a TypeScript optional property (`x?: T`). */
  datatype Option<+T> = None | Some(value: T)

  /** The outcome of an operation that either yields a value or fails with an error. */
  datatype Result<+R, +E> = Success(value: R) | Failure(error: E)
}
