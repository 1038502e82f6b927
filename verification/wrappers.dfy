/** Optional values: the model's stand-in for Go's `value, ok := m[k]` lookups
    and for calls that may fail without a payload. */
module Wrappers {

  datatype Option<+T> = None | Some(value: T)
}
