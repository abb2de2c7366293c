/** The Option datatype every other module uses where the source answers a
    value or nothing. */
module Wrappers {

  datatype Option<+T> = None | Some(value: T)
}
