/** Optional values: a JSON field that may be missing, a row lookup that may fail. */
module Wrappers {
  datatype Option<+T> = None | Some(value: T)
}
