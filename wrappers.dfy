/** The optional-value datatype used for the `thread` field of a comment and for
    the two outputs the driver may or may not write. */
module Wrappers {

  datatype Option<+T> = None | Some(value: T)
}
