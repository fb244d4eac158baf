/** Option type shared by the parsers and list lookups of the model. */
module Wrappers {

  /** A value that may be absent; `None` stands for a C NULL pointer or a failed parse. */
  datatype Option<+T> = None | Some(value: T)
}
