// Optional values, standing for Swift's `T?`.

module Wrappers {

  datatype Option<+T> = None | Some(value: T)
}
