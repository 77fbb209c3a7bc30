/** Option and Result: the success/failure values the scraper's functions return. */
module Wrappers {

  /** A value that may be absent (Go's nil, Python's None). */
  datatype Option<+T> = None | Some(value: T)

  /** A value or an error (Go's `(value, err)` pair, Python's raised exception). */
  datatype Result<+T, +E> = Ok(value: T) | Err(error: E)
}
