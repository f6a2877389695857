/** Missing values and error returns. */
module Wrappers {

  /** A cell that may be missing (pandas' NaN/None in an object column). */
  datatype Option<+T> = None | Some(value: T)

  /** The outcome of an operation that can raise. */
  datatype Result<+T, +E> = Ok(value: T) | Err(error: E)
}
