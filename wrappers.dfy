/** The optional value used wherever the service can fail without a message. */
module Wrappers {

  datatype Option<+T> = None | Some(value: T)
}
