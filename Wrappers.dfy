/** Optional values: the model's rendering of a JavaScript `undefined` / `null` result. */
module Wrappers {

  datatype Option<+T> = None | Some(value: T)
}
