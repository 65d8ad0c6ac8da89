/** The optional value used for JavaScript's `null`-or-value component state. */
module Options {

  datatype Option<+T> = None | Some(value: T)
}
