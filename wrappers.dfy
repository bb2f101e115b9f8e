/** Optional values, standing for Python's `Optional[...]` and for a search that may find nothing. */
module Wrappers {
  datatype Option<+T> = None | Some(value: T)
}
