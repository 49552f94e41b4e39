/** Optional values, standing for Swift optionals and Python `None`. */
module Wrappers {

  datatype Option<+T> = None | Some(value: T)
}
