/** A value that may be missing: the model's rendering of Python's `None`. */
module Options {
  datatype Option<+T> = None | Some(value: T)
}
