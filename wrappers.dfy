// Optional values, for host callbacks that may find nothing and for pointers
// that may be null.

module Wrappers {

  datatype Option<T> = None | Some(value: T)
}
