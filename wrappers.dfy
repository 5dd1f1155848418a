/** Optional values: Python's None / JavaScript's null and a present value. */
module Wrappers {
  datatype Option<T> = None | Some(value: T)
}
