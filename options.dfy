/** The optional value used where the source returns `undefined` or a found element. */
module Options {
  datatype Option<+T> = None | Some(value: T)
}
