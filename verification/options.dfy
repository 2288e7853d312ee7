/** A value that may be absent: SQL's NULL, a search without a result, a refused input. */
module Options {
  datatype Option<+T> = None | Some(value: T)
}
