/** The absent-or-present value that the resolvers return: JavaScript's `undefined`
    (rendered as GraphQL `null`) is `None`. */
module Wrappers {
  datatype Option<+T> = None | Some(value: T)
}
