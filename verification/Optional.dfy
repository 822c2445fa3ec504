/** The value that may be absent. */
module Optional {
  datatype Option<+T> = None | Some(value: T)
}
