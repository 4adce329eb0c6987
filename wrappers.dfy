/** Optional values, used for the results of Java calls that can fail without an exception. */
module Wrappers {

  datatype Option<+T> = None | Some(value: T)
}
