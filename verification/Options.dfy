/** The one wrapper the whole project shares. */
module Options {
  datatype Option<+T> = None | Some(value: T)
}
