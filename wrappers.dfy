/** The optional value used where the source has `undefined`, `null` or a missing entry. */
module Wrappers {
  datatype Option<+T> = None | Some(value: T)
}
