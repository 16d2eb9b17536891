/** Results of operations that may fail, optional values, and timestamps with or without a time zone. */
module Wrappers {

  datatype Option<+T> = None | Some(value: T)

  datatype Result<+T, +E> = Ok(value: T) | Err(error: E)

  /** A datetime argument: naive, or one that names an instant. */
  datatype Clock<+T> = Naive | Aware(at: T)
}
