/** An optional value: `None` where the source uses None. */
module Options {
  datatype Option<+T> = None | Some(value: T)
}
