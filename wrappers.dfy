/** Stock helper types shared by the model's modules. */
module Wrappers {

  /** A value that may be absent: in the JavaScript being modelled, `null`. */
  datatype Option<+T> = None | Some(value: T)
}
