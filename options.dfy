/** The optional value used wherever the source has `None`, `null` or `undefined`. */
module Options {

  datatype Option<+T> = None | Some(value: T)
}
