/** The absent-or-present value that stands for Ruby's `nil` where the library
    accepts or returns one (an omitted subfield code, an empty `first`). */
module Wrappers {
  datatype Option<+T> = None | Some(value: T)
}
