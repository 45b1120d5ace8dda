/** The unsigned integer widths the sources rely on. Arithmetic on a newtype is
    checked for overflow, so a wrap-around cannot go unnoticed. */
module MachineIntegers {
  newtype uint32 = x: int | 0 <= x < 0x1_0000_0000
  newtype uint64 = x: int | 0 <= x < 0x1_0000_0000_0000_0000

  const UINT64_MAX: uint64 := 0xFFFF_FFFF_FFFF_FFFF
  const INT_MAX := 0x7FFF_FFFF

  /** A C int, where only its range matters. */
  type cint = x: int | -INT_MAX - 1 <= x <= INT_MAX
}
