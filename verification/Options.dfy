/** A value that may be missing: Python's `None`, or the result of an operation that may raise. */
module Options {
  datatype Option<+T> = None | Some(value: T)
}
