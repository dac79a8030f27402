/** The optional-value type used for the nullable references of the server
    (the connected client, a completion item's kind). */
module Wrappers {

  datatype Option<+T> = None | Some(value: T)
}
