/** The usual optional-value datatype, used for lookups and for JavaScript's NaN. */
module Wrappers {

  datatype Option<+T> = None | Some(value: T)

}
