/** Optional values: PHP's `null` / "key not set" on one side, a value on the other. */
module Wrappers {

  datatype Option<+T> = None | Some(value: T)
}
