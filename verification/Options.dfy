module Options {
  /** An absent or present value. */
  datatype Option<+T> = None | Some(value: T)
}
