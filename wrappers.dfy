/** Failure-carrying values shared by the generator and the runtime model:
    an optional value, and a result that is either a value or an error. */
module Wrappers {

  datatype Option<+T> = None | Some(value: T)

  /** `Success` for a Rust `Ok(..)`, `Failure` for an `Err(..)`. */
  datatype Result<+T, +E> = Success(value: T) | Failure(error: E)
}
