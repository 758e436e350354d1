/** The option type shared by the models of nullable values and absent rows. */
module Options {
  datatype Option<+T> = None | Some(value: T)
}
