/** Small shared value types. */
module Base {

  /** A value that may be absent (JavaScript's `null`, `undefined` or `NaN` in the bot). */
  datatype Option<T> = None | Some(value: T)
}
