/** Datatypes shared by every component of the model. */
module Prelude {
  datatype Option<+T> = None | Some(value: T)
}
