/** The optional-value datatype used for C# references that may be null. */
module Wrappers {

  datatype Option<+T> = None | Some(value: T)
}
