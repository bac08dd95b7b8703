/** Optional values, used wherever the C code may return NULL. */
module Wrappers {
  datatype Option<T> = None | Some(value: T)
}
