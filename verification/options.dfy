/** The optional value used for a nullable string and for a formatting call that may fail. */
module Options {

  datatype Option<+T> = None | Some(value: T)
}
