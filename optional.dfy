/** Python's `None` next to a value: `Some(v)` or `None`. */
module Optional {

  datatype Option<+T> = None | Some(value: T)
}
