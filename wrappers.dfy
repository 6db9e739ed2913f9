/** The optional value used for protobuf `has_*` fields and for null handles. */
module Wrappers {

  datatype Option<+T> = None | Some(value: T)
}
