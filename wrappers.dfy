/** Optional values: `None` stands for Go's `nil` (a nil error, a nil pointer, a nil map). */
module Wrappers {
  datatype Option<+T> = None | Some(value: T)
}
