/** The optional value used wherever a GraphQL argument or field may be absent (undefined or null). */
module Wrappers {

  datatype Option<+T> = None | Some(value: T)

}
