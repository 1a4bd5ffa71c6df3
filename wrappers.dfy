/** Optional values: the model's stand-in for Python's `None` and for an
    operation that raised an exception which the caller catches. */
module Wrappers {

  datatype Option<+T> = None | Some(value: T)
}
