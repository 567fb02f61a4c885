/** The optional value used where the C# code has a nullable reference or a failed match. */
module Wrappers {
  datatype Option<+T> = None | Some(value: T)
}
