/** An optional value: the derivative models return None where the source
    produces no meaningful number (a division by zero). */
module Wrappers {
  datatype Option<+T> = None | Some(value: T)
}
