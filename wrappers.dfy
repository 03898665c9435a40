/** The optional value used where the component keeps `null` or "not found". */
module Wrappers {
  datatype Option<+T> = None | Some(value: T)
}
