/** The usual optional-value datatype, used for the nullable fields and the optional error of a reply. */
module Options {
  datatype Option<T> = None | Some(value: T)
}
