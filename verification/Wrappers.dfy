/** The optional values that stand for the nullable columns and the absent results of the sources. */
module Wrappers {
  datatype Option<+T> = None | Some(value: T)
}
