/** The optional value used across the model. */
module Wrappers {

  /** A value that may be absent: JavaScript's `null`/`undefined` or a missing optional property. */
  datatype Option<+T> = None | Some(value: T)
}
