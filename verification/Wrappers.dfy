/** Definitions shared by the other modules. */
module Wrappers {

  /** A value that may be absent: the model of a pointer that may be NULL. */
  datatype Option<+T> = None | Some(value: T)

  /** The number of values of a Uint32. */
  const UINT32 := 0x1_0000_0000
}
