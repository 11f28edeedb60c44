/** Optional values, standing for the `undefined` / `null` cases of the
    TypeScript source. */
module Wrappers {

  datatype Option<+T> = None | Some(value: T)
}
