/** A value that may be absent: JavaScript's `null` in the places the console uses it. */
module Optional {
  datatype Option<+T> = None | Some(value: T)
}
