/** The optional value used wherever the modelled code returns `null` or `undefined`. */
module Options {
  datatype Option<+T> = None | Some(value: T)
}
