/** Optional values: a command argument that may be absent, a map lookup that may miss. */
module Wrappers {
  datatype Option<+T> = None | Some(value: T)
}
