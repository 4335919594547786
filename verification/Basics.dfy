/** Types that several parts of the system share. */
module Basics {
  datatype Option<T> = None | Some(value: T)

  type Byte = x: nat | x < 0x100
  type Bytes = seq<Byte>
  type U32 = x: nat | x < 0x1_0000_0000
  type U64 = x: nat | x < 0x1_0000_0000_0000_0000
  type Int32 = x: int | -0x8000_0000 <= x < 0x8000_0000
  type I64 = x: int | -0x8000_0000_0000_0000 <= x <= 0x7fff_ffff_ffff_ffff

  const WORD: nat := 0x1_0000_0000
  const U32_MAX: nat := 0xffff_ffff
  const I64_MAX: int := 0x7fff_ffff_ffff_ffff
  const I64_MIN: int := -0x8000_0000_0000_0000

  const EQUALS: Byte := 61

  /** The most listeners that one service can have. */
  const MAX_LISTEN_FDS: nat := 256

  /** Casts between int and uint32_t keep the bits. */
  function AsU32(x: Int32): U32 {
    if x < 0 then x + WORD else x
  }

  function AsInt32(x: U32): Int32 {
    if x >= 0x8000_0000 then x - WORD else x
  }

  /** Subtraction of 64-bit integers that stops at the ends of the range. */
  function SaturatingSub(x: I64, y: I64): I64 {
    if x - y > I64_MAX then I64_MAX else if x - y < I64_MIN then I64_MIN else x - y
  }

  /** The state of a unit. */
  datatype UnitState = Inactive | Activating | Active | Deactivating | UnitFailed | Maintenance

  /** A system call number with the action for it. */
  datatype Rule = Rule(nr: Int32, action: U32)

  /** An array that C passes as a pointer and a count: its items, or no items to
      read because the pointer is null or the count is negative. */
  datatype CArray<T> = Items(items: seq<T>) | NoItems(count: int)

  function Contents<T>(a: CArray<T>): seq<T> {
    if a.Items? then a.items else []
  }

  function Count<T>(a: CArray<T>): int {
    if a.Items? then |a.items| else a.count
  }
}
