/** Optional values: a helper that either produced a value or did not. */
module Wrappers {
  datatype Option<T> = None | Some(value: T)
}
