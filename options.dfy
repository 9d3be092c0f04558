/** An optional value: Python's `None`, JavaScript's `null`/`undefined`. */
module Options {

  datatype Option<T> = None | Some(value: T)
}
