/// Shared result wrapper.
module Wrappers {
  datatype Option<T> = None | Some(value: T)
}
