/** Optional values: a regex match that may be absent, a request that may not be built. */
module Wrappers {

  datatype Option<+T> = None | Some(value: T)
}
