/** The optional value used where the source has `null`, `undefined` or a
    value that is not a finite number. */
module Options {

  datatype Option<+T> = None | Some(value: T)

}
