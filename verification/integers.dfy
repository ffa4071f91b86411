/** The Go integer types that matter, and the conversions between them that can lose bits. */
module Integers {

  type byte = x: int | 0 <= x < 0x100
  type uint16 = x: int | 0 <= x < 0x1_0000
  type uint32 = x: int | 0 <= x < 0x1_0000_0000
  type uint64 = x: int | 0 <= x < 0x1_0000_0000_0000_0000
  type int32 = x: int | -0x8000_0000 <= x < 0x8000_0000
  type int64 = x: int | -0x8000_0000_0000_0000 <= x < 0x8000_0000_0000_0000

  type bytes = seq<byte>

  const MAX_UINT32: uint32 := 0xffff_ffff

  /** Go's conversion to `uint32`: the low 32 bits. */
  function ToUint32(x: int): uint32 {
    x % 0x1_0000_0000
  }

  /** The `int64` with the same low 64 bits: what Go's wrapping `int64` arithmetic yields. */
  function ToInt64(x: int): int64 {
    (x + 0x8000_0000_0000_0000) % 0x1_0000_0000_0000_0000 - 0x8000_0000_0000_0000
  }

  predicate FitsInt64(x: int) {
    -0x8000_0000_0000_0000 <= x < 0x8000_0000_0000_0000
  }

  /** Two's complement: the unsigned word with the bits of a signed one, and back. */
  function Unsigned32(x: int32): uint32 {
    if x < 0 then x + 0x1_0000_0000 else x
  }

  function Signed32(x: uint32): int32 {
    if x >= 0x8000_0000 then x - 0x1_0000_0000 else x
  }

  function Unsigned64(x: int64): uint64 {
    if x < 0 then x + 0x1_0000_0000_0000_0000 else x
  }

  function Signed64(x: uint64): int64 {
    if x >= 0x8000_0000_0000_0000 then x - 0x1_0000_0000_0000_0000 else x
  }

  /** Conversions keep the low bits, whatever the argument, and arithmetic that overflows wraps. */
  lemma KeepsLowBits(x: int)
    ensures (ToUint32(x) - x) % 0x1_0000_0000 == 0
    ensures (ToInt64(x) - x) % 0x1_0000_0000_0000_0000 == 0
    ensures FitsInt64(x) <==> ToInt64(x) == x
  {
  }

  lemma KeepsBits(x: int32, y: int64)
    ensures (Unsigned32(x) - x) % 0x1_0000_0000 == 0 && Signed32(Unsigned32(x)) == x
    ensures (Unsigned64(y) - y) % 0x1_0000_0000_0000_0000 == 0 && Signed64(Unsigned64(y)) == y
  {
  }
}
