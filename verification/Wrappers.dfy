/** The optional value used wherever the source passes a possibly-null pointer. */
module Wrappers {
  datatype Option<+T> = None | Some(value: T)
}
