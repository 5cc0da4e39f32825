/** The optional value used where the sources write a nil pointer, a null or a separate "ready" flag. */
module Options {
  datatype Option<+T> = None | Some(value: T)
}
