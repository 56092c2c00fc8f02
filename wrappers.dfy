/** Optional values: a reading that failed to parse, a decomposition that raised. */
module Wrappers {
  datatype Option<+T> = None | Some(value: T)
}
