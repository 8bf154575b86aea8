/** A value that may be absent: JavaScript's `T | null`. */
module Optional {
  datatype Option<+T> = None | Some(value: T)
}
