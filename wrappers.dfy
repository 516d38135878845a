/** The optional value used where the exporter stores `null`. */
module Wrappers {
  datatype Option<+T> = None | Some(value: T)
}
