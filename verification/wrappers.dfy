/** Optional values: the model of a TypeScript `T | undefined` result. */
module Wrappers {
  datatype Option<+T> = None | Some(value: T)
}
