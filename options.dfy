/** An optional value: a form field that may be missing, a month that may be unselected. */
module Options {
  datatype Option<T> = None | Some(value: T)
}
