/** Optional values, used where the source raises an exception or finds nothing. */
module Wrappers {
  datatype Option<+T> = None | Some(value: T)
}
