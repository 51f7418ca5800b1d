/** Failure-carrying values shared by the whole model: Go's `(T, error)` returns
    become `Result`, and optional values become `Option`. */
module Wrappers {

  datatype Option<+T> = None | Some(value: T)

  datatype Result<+T, +E> = Success(value: T) | Failure(error: E)

  /** A Go `error` value, kept abstract as its message text. */
  type Error = string
}
