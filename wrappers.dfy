/** The optional value used for parsers and for an output that is not written. */
module Wrappers {
  datatype Option<T> = None | Some(value: T)
}
