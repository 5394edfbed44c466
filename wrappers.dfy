/** An optional value, used where the source returns None or raises on bad input. */
module Wrappers {

  datatype Option<+T> = None | Some(value: T)
}
