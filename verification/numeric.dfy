/** Fixed-width unsigned integers of the C++ source, as subset types of `int`. */
module Numeric {

  const MAXUINT16: int := 0xFFFF
  const MAXUINT32: int := 0xFFFF_FFFF

  type uint8 = x: int | 0 <= x < 0x100
  type uint16 = x: int | 0 <= x <= MAXUINT16
  type uint32 = x: int | 0 <= x <= MAXUINT32
  type int32 = x: int | -0x8000_0000 <= x < 0x8000_0000
}
