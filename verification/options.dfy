/** The optional value returned by the partial decoders of the model. */
module Options {

  datatype Option<+T> = None | Some(value: T)
}
