/** The usual optional value: the client's NULL pointers and the analysis' `None`. */
module Options {
  datatype Option<+T> = None | Some(value: T)
}
