/** The optional value used where the JavaScript code yields `undefined` or `null`. */
module Wrappers {
  datatype Option<+T> = None | Some(value: T)
}
