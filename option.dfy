/** The absent-or-present value that replaces Python's None. */
module Optional {

  datatype Option<+T> = None | Some(value: T)
}
