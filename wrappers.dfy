/** Optional values: a C pointer that may be null, a Java reference that may be null,
    or a computation that may fail. */
module Wrappers {

  datatype Option<+T> = None | Some(value: T)
}
