/** Optional values: a missing matrix cell, an undefined (NaN) ratio or mean,
    a failed external call. */
module Wrappers {

  datatype Option<+T> = None | Some(value: T)
}
