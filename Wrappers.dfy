/** The optional value used where the source passes `null`. */
module Wrappers {
  datatype Option<+T> = None | Some(value: T)
}
