/** The absent-or-present value used for lookups and parsers. */
module Optional {

  datatype Option<+T> = None | Some(value: T)

}
