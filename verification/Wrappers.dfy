/** Values that may be absent, as NULL stands for absence in the sources. */
module Wrappers {
  datatype Option<+T> = None | Some(value: T)
}
