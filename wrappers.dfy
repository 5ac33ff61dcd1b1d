/** The optional value used for Kotlin's nullable results (`Int?`, `Item?`). */
module Wrappers {
  datatype Option<+T> = None | Some(value: T)
}
