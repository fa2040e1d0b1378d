/** Small wrapper datatypes shared by the other modules. */
module Wrappers {

  /** A value that may be absent (JavaScript's `undefined`). */
  datatype Option<+T> = None | Some(value: T)

  /** How a promise settles: fulfilled, or rejected with a reason. */
  datatype Outcome<+E> = Pass | Fail(error: E)
}
