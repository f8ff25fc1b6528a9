module Wrappers {

  /** A value that may be missing: a nil pointer, a missing row, an absent key. */
  datatype Option<+T> = None | Some(value: T)

  /** A value, or the error returned beside it. */
  datatype Result<+T, +E> = Ok(value: T) | Err(error: E)

  /** Where a run ends, or that one of its steps could not be taken. */
  datatype Outcome<+S> = Reached(state: S) | Stuck
}
