// The few instructions of the processor that move control, read from their bytes.
module Processor {
  import opened Wrappers

  type byte = x: int | 0 <= x < 256

  // A displacement of one byte, and one of four, low byte first.
  function Signed8(b: byte): int { if b < 128 then b else b - 256 }

  function Signed32(b0: byte, b1: byte, b2: byte, b3: byte): int
  {
    b0 + 256 * b1 + 65536 * b2 + 16777216 * (if b3 < 128 then b3 else b3 - 256)
  }

  // JMP, JZ and JNZ, short and near: where the processor goes on from the jump at p, with
  // the zero flag set or not. None where no jump stands.
  function GoesTo(code: seq<byte>, p: int, zero: bool): Option<int>
  {
    if !(0 <= p && p + 2 <= |code|) then None
    else if code[p] == 0xEB then Some(p + 2 + Signed8(code[p + 1]))
    else if code[p] == 0x74 then Some(if zero then p + 2 + Signed8(code[p + 1]) else p + 2)
    else if code[p] == 0x75 then Some(if zero then p + 2 else p + 2 + Signed8(code[p + 1]))
    else if p + 5 <= |code| && code[p] == 0xE9 then Some(p + 5 + Near(code, p + 1))
    else if p + 6 <= |code| && code[p] == 0x0F && code[p + 1] == 0x84 then Some(if zero then p + 6 + Near(code, p + 2) else p + 6)
    else if p + 6 <= |code| && code[p] == 0x0F && code[p + 1] == 0x85 then Some(if zero then p + 6 else p + 6 + Near(code, p + 2))
    else None
  }

  function Near(code: seq<byte>, p: int): int
    requires 0 <= p && p + 4 <= |code|
  {
    Signed32(code[p], code[p + 1], code[p + 2], code[p + 3])
  }

  // From p the processor comes to q, whatever the flag: it is there, or a jump to it.
  ghost predicate ComesTo(code: seq<byte>, p: int, q: int)
  {
    p == q || forall zero :: GoesTo(code, p, zero) == Some(q)
  }

  // RET
  predicate Returns(code: seq<byte>, p: int) { 0 <= p < |code| && code[p] == 0xC3 }
}
