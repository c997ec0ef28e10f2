/** Optional values, for arguments a JavaScript caller may leave undefined. */
module Wrappers {

  datatype Option<+T> = None | Some(value: T)

}
