/** An optional value: a JavaScript value that may be `undefined`, a lookup that may find nothing. */
module Options {

  datatype Option<T> = None | Some(value: T)
}
