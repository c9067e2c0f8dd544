/** The optional value used for JavaScript's `undefined` and for optional
    record fields. */
module Wrappers {
  datatype Option<+T> = None | Some(value: T)
}
