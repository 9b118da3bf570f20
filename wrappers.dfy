/** The optional-value datatype used for fields a Firestore document may lack. */
module Wrappers {
  datatype Option<+T> = None | Some(value: T)
}
