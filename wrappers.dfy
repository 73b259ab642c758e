/** The optional value used for absent request fields, empty date inputs and unset sessions. */
module Wrappers {
  datatype Option<+T> = None | Some(value: T)
}
