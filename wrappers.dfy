/** Optional values, used where the source returns `undefined` or finds nothing. */
module Wrappers {
  datatype Option<+T> = None | Some(value: T)
}
