/** Optional values: Java's `null`, `Optional.empty()` and "this parse threw" all become None. */
module Wrappers {

  datatype Option<+T> = None | Some(value: T)

}
