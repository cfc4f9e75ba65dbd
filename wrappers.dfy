/** The optional value the JavaScript code expresses with `null`/`undefined`. */
module Wrappers {

  datatype Option<+T> = None | Some(value: T)
}
