/** The "value or nothing" result shared by the calculator and the parser. */
module Options {

  /** `None` stands for Python's `None` return, `Some(v)` for a value. */
  datatype Option<+T> = None | Some(value: T)
}
