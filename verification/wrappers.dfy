/** Optional value, used where the controller may have no answer. */
module Wrappers {

  datatype Option<+T> = None | Some(value: T)
}
