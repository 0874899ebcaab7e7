/** The optional value shared by all the models. */
module Options {
  datatype Option<+T> = None | Some(value: T)
}
