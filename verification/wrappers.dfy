/** The optional value returned by the parsers that invert the decoder's text output. */
module Wrappers {

  datatype Option<+T> = None | Some(value: T)
}
