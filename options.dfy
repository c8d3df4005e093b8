/** The optional value the modelled code expresses with Python's `None` or a C++ null pointer. */
module Options {
  datatype Option<T> = None | Some(value: T)
}
