/** Small types used everywhere. */
module Wrappers {

  datatype Option<+T> = None | Some(value: T)

  /** An int made of a size_t: the low 32 bits, read as two's complement. */
  function Int32(x: nat): (r: int)
    ensures x < 0x8000_0000 ==> r == x
    ensures -0x8000_0000 <= r < 0x8000_0000 && (x - r) % 0x1_0000_0000 == 0
  {
    var m := x % 0x1_0000_0000;
    if m < 0x8000_0000 then m else m - 0x1_0000_0000
  }

  /** An int64_t made of a uint64_t. */
  function Int64(x: nat): (r: int)
    ensures x < 0x8000_0000_0000_0000 ==> r == x
    ensures -0x8000_0000_0000_0000 <= r < 0x8000_0000_0000_0000 && (x - r) % 0x1_0000_0000_0000_0000 == 0
  {
    var m := x % 0x1_0000_0000_0000_0000;
    if m < 0x8000_0000_0000_0000 then m else m - 0x1_0000_0000_0000_0000
  }
}
