/** The optional value used for the model's error returns. */
module Wrappers {

  datatype Option<+T> = None | Some(value: T)
}
