/** The optional value used wherever the program uses `None`. */
module Options {
  datatype Option<+T> = None | Some(value: T)
}
