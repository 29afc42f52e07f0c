/** Optional values: Python's "a value or None" as returned by the accessors. */
module Wrappers {

  datatype Option<+T> = None | Some(value: T)
}
