/** The optional value used wherever the source stores `None`. */
module Options {
  datatype Option<+T> = None | Some(value: T)
}
