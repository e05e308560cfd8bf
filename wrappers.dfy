/** The optional result of an execution unit: `None` when its switch matches no case. */
module Wrappers {
  datatype Option<T> = None | Some(value: T)
}
