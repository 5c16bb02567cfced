/** An optional value: a JavaScript field that may be absent, `null` or `undefined`. */
module Wrappers {

  datatype Option<+T> = None | Some(value: T)
}
