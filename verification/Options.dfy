/** An optional value, in place of Go's nil and its `found` flags. */
module Options {
  datatype Option<+T> = None | Some(value: T)
}
