/** The nullable value of a database cell or a JSON field. */
module Wrappers {

  datatype Option<+T> = None | Some(value: T)
}
