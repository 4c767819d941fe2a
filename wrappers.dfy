/** Optional values, standing for Go's nil results and `(value, err)` pairs. */
module Wrappers {

  datatype Option<+T> = None | Some(value: T)
}
