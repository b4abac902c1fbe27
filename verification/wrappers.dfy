/** Optional values, standing in for Swift optionals. */
module Wrappers {

  /** `None` plays the role of Swift's `nil`. */
  datatype Option<+T> = None | Some(value: T)
}
