/** What every module shares: an optional value. */
module Wrappers {
  datatype Option<T> = None | Some(value: T)
}
