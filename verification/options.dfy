/** The optional-value wrapper shared by every module (a JavaScript value that may be `null` or `undefined`). */
module Options {
  datatype Option<T> = None | Some(value: T)
}
