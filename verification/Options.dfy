/** The optional value used wherever the program has a `None`. */
module Options {
  datatype Option<+T> = None | Some(value: T)
}
