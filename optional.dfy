/** The optional value used throughout the model: a DOM lookup that may find no
    element, a prop that may be undefined, a request that may not be sent. */
module Optional {

  datatype Option<+T> = None | Some(value: T)

}
