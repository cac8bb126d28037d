/**
 * Fixed-width integer types of the firmware's C code, and the Option type
 * used wherever the C code signals "no value" through a return flag or a
 * NULL pointer.
 */
module CTypes {

  type u8 = x: int | 0 <= x < 0x100
  type u16 = x: int | 0 <= x < 0x1_0000
  type u32 = x: int | 0 <= x < 0x1_0000_0000
  type i16 = x: int | -0x8000 <= x < 0x8000
  type i32 = x: int | -0x8000_0000 <= x < 0x8000_0000

  const U16_MAX: int := 0xFFFF

  /** A C value of some type, or the absence of one (a NULL pointer, a failed lookup). */
  datatype Option<T> = None | Some(value: T)

  /** Truncation of an integer to the low 8 bits, as a C cast to `uint8_t` does. */
  function ToU8(x: int): (r: u8)
    ensures 0 <= x < 0x100 ==> r == x
  {
    x % 0x100
  }

  /** Truncation of an integer to the low 16 bits, as a C cast to `uint16_t` does. */
  function ToU16(x: int): (r: u16)
    ensures 0 <= x < 0x1_0000 ==> r == x
  {
    x % 0x1_0000
  }
}
