/** Optional values: the model's stand-in for a value that may be `null` or `undefined`. */
module Wrappers {

  /** `None` is an absent value; `Some(v)` carries one. */
  datatype Option<+T> = None | Some(value: T)
}
