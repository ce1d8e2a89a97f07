/** A value that may be missing, and bytes. */
module Basics {
  datatype Option<+T> = None | Some(value: T)

  newtype byte = b: int | 0 <= b < 256

  type Bytes = seq<byte>
}
