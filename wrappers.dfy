/** Option, Result and Outcome: the source's `None` values and its exceptions as data. */
module Wrappers {

  datatype Option<+T> = None | Some(value: T)

  datatype Result<+R, +E> = Ok(value: R) | Err(error: E)

  /** Pass, or the failure that ended an operation early. */
  datatype Outcome<+E> = Pass | Fail(error: E)
}
