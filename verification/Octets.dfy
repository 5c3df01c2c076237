/** Machine integers of the protocol stack, and the conventional optional value. */
module Octets {
  type uint8 = i: int | 0 <= i < 0x100
  type uint16 = i: int | 0 <= i < 0x1_0000
  type uint32 = i: int | 0 <= i < 0x1_0000_0000

  /** RH_BROADCAST_ADDRESS */
  const BROADCAST: uint8 := 0xff

  function Wrap8(i: int): uint8 { i % 0x100 }
  function Wrap16(i: int): uint16 { i % 0x1_0000 }
  function Wrap32(i: int): uint32 { i % 0x1_0000_0000 }

  function Min(a: int, b: int): int { if a <= b then a else b }

  datatype Option<+T> = None | Some(value: T)
}
