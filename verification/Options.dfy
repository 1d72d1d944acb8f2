/** Option, as used wherever the source returns "no rows" or a nullable column. */
module Options {
  datatype Option<+T> = None | Some(value: T)
}
