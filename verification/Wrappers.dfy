/** The optional value used wherever the Go code tests a pointer against nil, and the range
    of Go's `uint64`. */
module Wrappers {
  datatype Option<+T> = None | Some(value: T)

  const UINT64_LIMIT: nat := 0x1_0000_0000_0000_0000
}
