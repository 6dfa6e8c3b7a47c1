/** The conventional optional value: a field the payload may omit, a lookup that may miss. */
module Options {
  datatype Option<+T> = None | Some(value: T)
}
