/** Optional values: JavaScript's `undefined`/`null` and failed provider replies. */
module Wrappers {
  datatype Option<+T> = None | Some(value: T)
}
