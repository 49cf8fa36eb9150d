/** Optional values and results with an error message, used in place of
    JavaScript's `undefined`/`null` and thrown `Error`s. */
module Wrappers {

  datatype Option<+T> = None | Some(value: T)

  /** `Ok(v)` is a normal return; `Err(msg)` is a thrown `Error` whose message is `msg`. */
  datatype Result<+T> = Ok(value: T) | Err(error: string)
}
