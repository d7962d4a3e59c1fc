// The optional value used wherever Kotlin has a nullable type.
module Wrappers {
  datatype Option<+T> = None | Some(value: T)
}
