/** An optional value: a reply, a parse or a stored row that may be absent. */
module Options {
  datatype Option<+T> = None | Some(value: T)
}
