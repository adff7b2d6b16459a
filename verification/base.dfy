/** A value that may be absent: the model's stand-in for `null`/`undefined`. */
module Base {

  datatype Option<+T> = None | Some(value: T)

  /** The browser's local key/value storage. */
  type Store = map<string, string>
}
