/** The optional value used for name lookups and for parsing. */
module Wrappers {

  datatype Option<+T> = None | Some(value: T)
}
