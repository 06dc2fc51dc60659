/** The absent-or-present value that the sources write as `T | null`. */
module Options {

  datatype Option<+T> = None | Some(value: T)

}
