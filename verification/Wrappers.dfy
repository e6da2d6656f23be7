/** The two result types used throughout the model. */
module Wrappers {

  /** A Go pointer that may be nil, or a table slot that may be empty. */
  datatype Option<+T> = None | Some(value: T)

  /** A Go pair (value, error) of which exactly one half is meaningful. */
  datatype Result<+T> = Success(value: T) | Failure(error: string)
}
