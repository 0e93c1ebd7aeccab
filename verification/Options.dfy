/** A value that may be absent: a nullable column, an undefined result. */
module Options {
  datatype Option<+T> = None | Some(value: T)
}
