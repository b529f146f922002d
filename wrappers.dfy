/** Optional values: the model's stand-in for Go's nilable `error`. */
module Wrappers {
  datatype Option<+T> = None | Some(value: T)
}
