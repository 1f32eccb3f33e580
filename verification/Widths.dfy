/** The sizes of the unsigned machine integers. */
module Widths {
  const U16: nat := 0x1_0000
  const U32: nat := 0x1_0000_0000
  const U64: nat := U32 * U32
  const U128: nat := U64 * U64
}
