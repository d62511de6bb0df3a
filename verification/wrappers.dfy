/** The optional value used throughout the model (JavaScript's `undefined`/`null` slots). */
module Wrappers {
  datatype Option<+T> = None | Some(value: T)
}
