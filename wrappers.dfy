/** Option and Result, the two shapes the scripts use for "maybe absent" and "success or message". */
module Wrappers {

  /** A value that may be absent: `null`, `undefined` or an empty form field in the scripts. */
  datatype Option<+T> = None | Some(value: T)

  /** The `{ success, user }` / `{ success: false, message }` objects the account code returns. */
  datatype Result<+T, +E> = Success(value: T) | Failure(error: E)
}
