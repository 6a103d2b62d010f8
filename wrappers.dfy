/** The optional value used throughout the model for "absent" and for a call that raised. */
module Wrappers {
  datatype Option<+T> = None | Some(value: T)
}
