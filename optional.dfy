/** The optional value the JavaScript sources express with `undefined` (or SQL with NULL). */
module Optional {

  datatype Option<T> = None | Some(value: T)
}
