/** The usual optional value; `None` also stands for pandas' missing value (NaN). */
module Wrappers {

  datatype Option<+T> = None | Some(value: T)

  /** An outcome, or the error text the caller would send back instead. */
  datatype Result<+T> = Success(value: T) | Failure(error: string)
}
