/** The Option datatype used where the source uses `None` as "absent". */
module Wrappers {
  datatype Option<+T> = None | Some(value: T)
}
