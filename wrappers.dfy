/** Option and Result values shared by the record, ledger and matching modules. */
module Wrappers {

  /** A value that may be absent (Python's `None`, a missing related record). */
  datatype Option<+T> = None | Some(value: T)

  /** The outcome of an operation that either succeeds or raises an error. */
  datatype Result<+R, +E> = Ok(value: R) | Err(error: E)
}
