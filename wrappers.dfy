/** The optional value used for absent fields (a missing title, no attached file,
    a server reply without an `error` field). */
module Wrappers {

  datatype Option<+T> = None | Some(value: T)
}
