/** Optional values, used where the JavaScript code yields `undefined`, `NaN`, `-1` or throws. */
module Wrappers {

  datatype Option<+T> = None | Some(value: T)

}
