/** The optional value used for the source's `null`, missing keys and failed parses. */
module Wrappers {
  datatype Option<+T> = None | Some(value: T)
}
