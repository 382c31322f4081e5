/** The optional value used by the state-machine model and the FIFO model. */
module Wrappers {
  datatype Option<+T> = None | Some(value: T)
}
