/** Small helper datatypes shared by the other modules. */
module Wrappers {

  /** A JavaScript value that may be `null`: `None` stands for `null`. */
  datatype Option<+T> = None | Some(value: T)
}
