/** Optional values: a request field that may be absent, a failure that may not happen. */
module Wrappers {

  datatype Option<+T> = None | Some(value: T)
}
