/** The nullable columns of the database rows. */
module Wrappers {
  datatype Option<+T> = None | Some(value: T)
}
