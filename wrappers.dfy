/** An optional value: the radio's "is a frame available" answer and the
    inverse of the command-code table. */
module Wrappers {

  datatype Option<+T> = None | Some(value: T)

}
