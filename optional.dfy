/** The usual Some/None wrapper, for lookups that may miss. */
module Optional {
  datatype Option<+T> = None | Some(value: T)
}
