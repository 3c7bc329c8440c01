/** Machine integer ranges and the failure-carrying result types shared by the
    modules of the HDA driver model. */
module HdaTypes {

  /** Unsigned integers of the widths the driver's C structures use. */
  type u8 = x: int | 0 <= x < 0x100
  type u16 = x: int | 0 <= x < 0x1_0000
  type u32 = x: int | 0 <= x < 0x1_0000_0000

  /** The page size of the x86-64 kernel the driver runs in. */
  const PAGE_SIZE: nat := 0x1000

  /** Error numbers the driver returns to the device-file layer. */
  const EINTR: int := 4
  const EBUSY: int := 16

  datatype Option<+T> = None | Some(value: T)

  /** A computation that either yields a value or stops at one of the
      driver's `__assert` checks (a kernel panic), named by `Panic`. */
  datatype Result<+T, +E> = Ok(value: T) | Panic(reason: E)

  /** Truncation of an integer into the range of uint8_t, as C does on an
      assignment to a uint8_t object. */
  function ToU8(x: int): (r: u8)
    ensures 0 <= x < 0x100 ==> r == x
    ensures (r - x) % 0x100 == 0
  {
    x % 0x100
  }

  /** Conversion of an unsigned 32-bit value into a (two's complement) int. */
  function U32ToInt(x: u32): (r: int)
    ensures -0x8000_0000 <= r < 0x8000_0000
    ensures (r - x) % 0x1_0000_0000 == 0
  {
    if x < 0x8000_0000 then x else x - 0x1_0000_0000
  }
}
