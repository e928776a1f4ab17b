/** Optional values: JavaScript's `undefined` / `null` in the fields the source leaves unset. */
module Wrappers {

  datatype Option<+T> = None | Some(value: T)

}
