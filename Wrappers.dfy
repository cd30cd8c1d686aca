/** The optional value used for "an exception was thrown, and which one". */
module Wrappers {
  datatype Option<+T> = None | Some(value: T)
}
