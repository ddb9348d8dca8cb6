/** Optional values, used for Go's nil-able results (an `error` that may be nil,
    a decode that may fail). */
module Wrappers {

  datatype Option<+T> = None | Some(value: T)
}
