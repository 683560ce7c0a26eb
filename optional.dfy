module Optional {
  /** A value that may be absent. */
  datatype Option<T> = None | Some(value: T)
}
