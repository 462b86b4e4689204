/** The optional value shared by the models below. */
module Options {
  datatype Option<+T> = None | Some(value: T)
}
