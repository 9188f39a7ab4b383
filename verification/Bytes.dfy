// Octets and the two-valued helper every other module uses.
module Bytes {
  type byte = x: int | 0 <= x < 256

  datatype Option<+T> = None | Some(value: T)

  function Min(a: nat, b: nat): nat { if a < b then a else b }

  // Four octets, most significant first, as proto.c's be32() reads them.
  function Be32(b0: byte, b1: byte, b2: byte, b3: byte): nat {
    b0 * 0x100_0000 + b1 * 0x1_0000 + b2 * 0x100 + b3
  }
}
