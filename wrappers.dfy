/** Optional values, standing for Python's `None` in the modelled code. */
module Wrappers {
  datatype Option<+T> = None | Some(value: T)
}
