/** Optional values, for results that the source reports as "nothing happened". */
module Wrappers {
  datatype Option<+T> = None | Some(value: T)
}
