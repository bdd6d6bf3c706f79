/** The optional value used for the source's missing arguments and for the
    inputs on which the source throws a TypeError. */
module Wrappers {

  datatype Option<+T> = None | Some(value: T)
}
