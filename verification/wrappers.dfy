// Optional values: the FAQ search returns `Some(position)` or `None`.
module Wrappers {

  datatype Option<+T> = None | Some(value: T)
}
