/** The optional value used for "not a number", "no series" and failed parses. */
module Options {
  datatype Option<+T> = None | Some(value: T)
}
