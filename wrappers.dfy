/** The optional value used where the source leaves a variable unassigned. */
module Wrappers {
  datatype Option<T> = None | Some(value: T)
}
