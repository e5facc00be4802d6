// A value that may be absent: Go's nil values and optional fields.
module Optional {
  datatype Option<+T> = None | Some(value: T)
}
