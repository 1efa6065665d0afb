/** Values that may be absent, for all the models. */
module Options {
  datatype Option<+T> = None | Some(value: T)
}
