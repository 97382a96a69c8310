/** Option and Result, used for a metadata key that may be absent and for the
    exceptions Python would raise. */
module Wrappers {

  datatype Option<+T> = None | Some(value: T)

  datatype Result<+R, +E> = Ok(value: R) | Err(error: E)

  /** The outcome of an operation that changes state and may stop early. */
  datatype Outcome<+E> = Pass | Fail(error: E)
}
