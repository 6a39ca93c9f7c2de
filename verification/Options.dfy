/** The optional value used wherever the runtime stores a nullable column or pointer. */
module Options {
  datatype Option<+T> = None | Some(value: T)
}
