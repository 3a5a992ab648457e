/** Optional values: an unset dropdown, a missing match. */
module Wrappers {

  datatype Option<+T> = None | Some(value: T)
}
