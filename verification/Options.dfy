/** The optional value used wherever the program has a nullable pointer. */
module Options {

  datatype Option<+T> = None | Some(value: T)
}
