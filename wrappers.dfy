/** The optional value used for the nullable slots of the model. */
module Wrappers {

  datatype Option<+T> = None | Some(value: T)
}
