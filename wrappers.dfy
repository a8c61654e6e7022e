/** Optional values: a React state slot that may hold `null`, or a callback that may not fire. */
module Wrappers {
  datatype Option<+T> = None | Some(value: T)
}
