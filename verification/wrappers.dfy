/** Optional values: TypeScript's `T | null` and the `NaN` case of a parsed number. */
module Wrappers {

  datatype Option<+T> = None | Some(value: T)

}
