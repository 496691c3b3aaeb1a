/** An optional value: a missing key, an unset field, no result. */
module Options {
  datatype Option<+T> = None | Some(value: T)
}
