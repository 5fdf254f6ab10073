/** Optional values: a tool path that may not have been found, a path that may not be derivable. */
module Wrappers {
  datatype Option<+T> = None | Some(value: T)
}
