/** A value that may be absent: what the source marks with a reserved index or a null pointer. */
module Options {
  datatype Option<+T> = None | Some(value: T)
}
