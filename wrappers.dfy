/** A value that may be absent, as a lookup or a search that can fail. */
module Wrappers {
  datatype Option<T> = None | Some(value: T)
}
