/** Bytes as numbers and as machine words, word sizes, and values that may be absent. */
module Basics {
  type byte = x: int | 0 <= x < 256
  type Bytes = seq<byte>

  type Raw = seq<bv8>

  const TWO_32: nat := 0x1_0000_0000
  const TWO_64: nat := 0x1_0000_0000_0000_0000

  datatype Option<+T> = None | Some(value: T)
}
