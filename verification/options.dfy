/** The optional value used where C returns NULL or reads outside a buffer. */
module Options {
  datatype Option<T> = None | Some(value: T)
}
