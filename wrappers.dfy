/** The optional value used across the model for attributes that may be unset. */
module Wrappers {

  datatype Option<T> = None | Some(value: T)
}
