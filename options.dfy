/** The optional value of the front end's `T | null` and of the service's `Option<T>`. */
module Options {

  datatype Option<+T> = None | Some(value: T)
}
