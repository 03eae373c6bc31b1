/** Values that may be absent: a missing key, a null field, an omitted argument. */
module Wrappers {

  datatype Option<+T> = None | Some(value: T)

}
