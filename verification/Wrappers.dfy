/** Optional values, used where the source returns an "absent" marker. */
module Wrappers {
  datatype Option<+T> = None | Some(value: T)
}
