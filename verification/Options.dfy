/** The conventional optional value, for Go's nil and its comma-ok results. */
module Options {
  datatype Option<+T> = None | Some(value: T)
}
