/** A value that may be absent: JavaScript's `null` / `undefined` beside a real value. */
module Optional {
  datatype Option<T> = None | Some(value: T)
}
