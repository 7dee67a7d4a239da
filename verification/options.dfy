/** The optional value used throughout the model for JavaScript's `null`/`undefined` fields. */
module Options {
  datatype Option<T> = None | Some(value: T)
}
