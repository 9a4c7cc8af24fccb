/** The optional value used wherever the source allows a null reference. */
module Wrappers {
  datatype Option<+T> = None | Some(value: T)
}
