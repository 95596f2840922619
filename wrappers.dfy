/** The optional value used for C# `null`-able arguments and for readers that may fail. */
module Wrappers {

  datatype Option<+T> = None | Some(value: T)
}
