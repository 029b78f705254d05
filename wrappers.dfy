/** Option type for lookups that may find nothing (a missing key reads as `undefined` in the source). */
module Wrappers {
  datatype Option<+T> = None | Some(value: T)
}
