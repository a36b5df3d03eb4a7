/** The conventional optional value, used wherever the source has a nil-able result. */
module Optional {
  datatype Option<+T> = None | Some(value: T)
}
