/** The optional value used wherever a lookup or a parse may produce nothing. */
module Options {

  datatype Option<+T> = None | Some(value: T)
}
