/** Small value wrappers shared by the limiter and the naming helpers. */
module Wrappers {

  /** A value that may be absent (JavaScript's `undefined` or `null`). */
  datatype Option<+T> = None | Some(value: T)
}
