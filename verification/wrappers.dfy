/** Optional values and results with an error, as returned by the views of the marketplace. */
module Wrappers {

  /** A value that may be absent (a query parameter that was not sent, a row that was not found). */
  datatype Option<+T> = None | Some(value: T)

  /** Either a value or the error that a view raises instead of producing it. */
  datatype Result<+T, +E> = Ok(value: T) | Err(error: E)

  /** Success without a value, or the error that a view raises. */
  datatype Outcome<+E> = Pass | Fail(error: E)
}
