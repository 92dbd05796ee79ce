/** An optional value, for Go's nil and its (value, found) pairs. */
module Wrappers {
  datatype Option<T> = None | Some(value: T)
}
