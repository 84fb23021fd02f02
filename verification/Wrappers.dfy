/** Optional values: Python's None, or a missing dictionary entry. */
module Wrappers {
  datatype Option<+T> = None | Some(value: T)
}
