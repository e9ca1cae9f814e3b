/** Optional values and success/failure outcomes, used where the source has
    `undefined` or throws/returns an `Error`. */
module Wrappers {

  datatype Option<+T> = None | Some(value: T)

  /** Pass, or Fail with the message of the `Error` the source raises. */
  datatype Outcome = Pass | Fail(message: string)
}
