/** An optional value: the source's `T | undefined` and `T | null`. */
module Options {
  datatype Option<+T> = None | Some(value: T)
}
