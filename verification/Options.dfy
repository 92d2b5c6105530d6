/** The optional values used throughout the model (Python's None-able fields). */
module Options {
  datatype Option<+T> = None | Some(value: T)
}
