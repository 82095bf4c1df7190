/** An optional value: an element that may be missing from the page, a storage
    key that may be unset, a script library that may not be loaded. */
module Options {
  datatype Option<+T> = None | Some(value: T)
}
