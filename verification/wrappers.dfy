/** Optional values, standing for the `?:` fields and nullable state of the storefront. */
module Wrappers {

  /** `None` stands for an absent (undefined or null) value. */
  datatype Option<+T> = None | Some(value: T)
}
