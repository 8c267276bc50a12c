/** Ruby's `nil`-or-value, used for optional fields and for "raised or returned normally". */
module Wrappers {

  datatype Option<+T> = None | Some(value: T)
}
