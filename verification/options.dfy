/** Python's `Optional[...]`: a value that may be `None`. */
module Options {
  datatype Option<+T> = None | Some(value: T)
}
