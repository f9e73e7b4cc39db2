/** Optional values, used for Go's nil-able `error`. */
module Wrappers {
  datatype Option<+T> = None | Some(value: T)
}
