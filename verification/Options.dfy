/** A value that may be missing: Go's nil pointers, comma-ok results and errors. */
module Options {
  datatype Option<+T> = None | Some(value: T)
}
