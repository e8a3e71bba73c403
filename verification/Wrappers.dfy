/** Optional values, as Go's nil pointers and missing map entries are modelled here. */
module Wrappers {

  datatype Option<+T> = None | Some(value: T)
}
