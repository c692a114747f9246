/** Optional values, used wherever the program holds `None`. */
module Wrappers {
  datatype Option<+T> = None | Some(value: T)
}
