/** The optional value used for message fields that may be absent or malformed. */
module Wrappers {

  datatype Option<+T> = None | Some(value: T)
}
