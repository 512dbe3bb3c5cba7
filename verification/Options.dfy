/** The result of an operation that may fail; error texts are not modelled. */
module Options {
  datatype Option<+T> = None | Some(value: T)
}
