/** The optional value used for the finder's memo cell and for optional rule attributes. */
module Wrappers {

  datatype Option<+T> = None | Some(value: T)
}
