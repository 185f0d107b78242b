/** A value that may be absent: Go's nil references and `value, ok` results. */
module Options {
  datatype Option<+T> = None | Some(value: T)
}
