/** The optional-value type used throughout the model. A .NET `null` string is `None`. */
module Wrappers {

  datatype Option<+T> = None | Some(value: T)
}
