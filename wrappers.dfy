/** Optional values, used where the JavaScript source yields `undefined` or a call may fail. */
module Wrappers {

  datatype Option<+T> = None | Some(value: T)
}
