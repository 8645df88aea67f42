/** Optional values, standing in for the nullable pointers and missing JSON fields of the client. */
module Wrappers {

  /** `None` is a null pointer or an absent field; `Some(v)` a present one. */
  datatype Option<+T> = None | Some(value: T)
}
