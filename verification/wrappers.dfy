/** Optional values: a JavaScript property that may be absent (undefined)
    or a piece of state that may be null. */
module Wrappers {

  datatype Option<+T> = None | Some(value: T)

}
