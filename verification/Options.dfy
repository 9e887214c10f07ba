/** The usual optional value, used for null pointers, empty slots and unknown drivers. */
module Options {
  datatype Option<+T> = None | Some(value: T)
}
