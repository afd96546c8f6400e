/** The optional value used wherever the source returns `undefined` or reads
    an optional field. */
module Wrappers {

  datatype Option<+T> = None | Some(value: T)
}
