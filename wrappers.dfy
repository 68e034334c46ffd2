/** Optional values: a JavaScript `undefined`/`null` or a PHP `null` where a value may be missing. */
module Wrappers {

  datatype Option<+T> = None | Some(value: T)
}
