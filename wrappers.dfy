/** The optional value used for "no row" and "no failing check". */
module Wrappers {
  datatype Option<+T> = None | Some(value: T)
}
