/**
 * Fixed-width integers of the C++ source. Dafny integers are unbounded, so every
 * conversion the source performs implicitly (int to char, int to short, size_t to
 * uint, size_t to int) is written out here as a wrap-around.
 */
module Ints {

  const U32: nat := 0x1_0000_0000

  /** The values of one byte of the data segment. */
  type Uint8 = x: int | 0 <= x < 0x100

  /** The values of a C++ `uint16_t`. */
  type Uint16 = x: int | 0 <= x < 0x1_0000

  /** The values of a C++ `uint` (32 bits). */
  type Uint32 = x: int | 0 <= x < 0x1_0000_0000

  /** The values of a C++ `char` used as a small signed integer. */
  type Int8 = x: int | -0x80 <= x < 0x80

  /** The values of a C++ `short`. */
  type Int16 = x: int | -0x8000 <= x < 0x8000

  /** The values of a C++ `int`. */
  type Int32 = x: int | -0x8000_0000 <= x < 0x8000_0000

  /** Conversion to an unsigned 32-bit integer: reduction modulo 2^32. */
  function Wrap32(x: int): (r: Uint32)
    ensures (r - x) % U32 == 0
    ensures 0 <= x < U32 ==> r == x
  {
    x % U32
  }

  /** `(char) x`: the two's-complement value of the low 8 bits. */
  function ToInt8(x: int): (r: Int8)
    ensures (r - x) % 0x100 == 0
    ensures -0x80 <= x < 0x80 ==> r == x
  {
    (x + 0x80) % 0x100 - 0x80
  }

  /** `(short) x`: the two's-complement value of the low 16 bits. */
  function ToInt16(x: int): (r: Int16)
    ensures (r - x) % 0x1_0000 == 0
    ensures -0x8000 <= x < 0x8000 ==> r == x
  {
    (x + 0x8000) % 0x1_0000 - 0x8000
  }

  /** `(int) x` for a wider value: the two's-complement value of the low 32 bits (C++20). */
  function ToInt32(x: int): (r: Int32)
    ensures (r - x) % U32 == 0
    ensures -0x8000_0000 <= x < 0x8000_0000 ==> r == x
  {
    (x + 0x8000_0000) % U32 - 0x8000_0000
  }
}
