/** The Some/None datatype used where the Go code returns a nil-able pointer or map. */
module Wrappers {

  datatype Option<+T> = None | Some(value: T)

}
