/** An optional value: an omitted argument, or a grid point that no longer exists. */
module Options {
  datatype Option<T> = None | Some(value: T)
}
