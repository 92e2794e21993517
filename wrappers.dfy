/** Optional values: the model's stand-in for JavaScript's `undefined` and for "no result". */
module Wrappers {
  datatype Option<+T> = None | Some(value: T)
}
