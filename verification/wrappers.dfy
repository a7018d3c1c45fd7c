/** Failure-carrying return values, used in place of the source's
    std::optional and of its process-terminating error exits. */
module Wrappers {

  /** std::optional: a value or nothing. */
  datatype Option<+T> = None | Some(value: T)

  /** Either a successful value or the error that ended the computation. */
  datatype Result<+T, +E> = Ok(value: T) | Err(error: E)
}
