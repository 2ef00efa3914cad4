/** Option and Result values, standing for Rust's `Option<T>` and `Result<T, syn::Error>`. */
module Wrappers {

  datatype Option<+T> = None | Some(value: T)

  /** A fallible computation; a failure carries the diagnostic text of the error. */
  datatype Result<+T> = Success(value: T) | Failure(error: string)
}
