// The two encodings of a jump: one byte of displacement or four.
module JumpEncoding {
  import opened Wrappers
  import opened Processor

  datatype Kind = Jmp | Jz | Jnz

  // JMPsize: size and encoding variant for an offset from the jump's own start. The
  // short form is refused near the ends of its range, 6 being the largest jump size.
  function JmpSize(kind: Kind, offset: int, variant: int): (int, int)
  {
    if -128 + 6 <= offset <= 127 && variant <= 0 then (2, 0)
    else if variant <= 1 then (if kind.Jmp? then 5 else 6, 1)
    else (0, 0)
  }

  function SizeOf(kind: Kind, variant: int): (r: int)
    requires 0 <= variant <= 1
    ensures 2 <= r <= 6
  {
    JmpSize(kind, 0, variant).0
  }

  function ShortOpcode(kind: Kind): byte
  {
    match kind case Jmp => 0xEB case Jz => 0x74 case Jnz => 0x75
  }

  function NearOpcode(kind: Kind): seq<byte>
  {
    match kind case Jmp => [0xE9] case Jz => [0x0F, 0x84] case Jnz => [0x0F, 0x85]
  }

  // The four low bytes of an integer, low byte first.
  function LowBytes(d: int): (r: seq<byte>)
    ensures |r| == 4
  {
    [d % 256, d / 256 % 256, d / 65536 % 256, d / 16777216 % 256]
  }

  // The bytes printJMP writes.
  function Encode(kind: Kind, offset: int, variant: int): (r: seq<byte>)
    requires 0 <= variant <= 1 && JmpSize(kind, offset, variant).1 == variant
    ensures |r| == SizeOf(kind, variant)
  {
    if variant == 0 then [ShortOpcode(kind), (offset - 2) % 256]
    else NearOpcode(kind) + LowBytes(offset - JmpSize(kind, offset, variant).0)
  }

  // ---------------------------------------------------------------- reading it back

  ghost predicate Stands(code: seq<byte>, p: int, bytes: seq<byte>)
  {
    0 <= p <= p + |bytes| <= |code| && code[p..p + |bytes|] == bytes
  }

  // The processor reads a jump of this kind at p, of this length, that goes to target.
  ghost predicate JumpAt(code: seq<byte>, p: int, kind: Kind, length: int, target: int)
  {
    0 <= p && p + length <= |code| &&
    ((length == 2 && code[p] == ShortOpcode(kind) && target == p + 2 + Signed8(code[p + 1])) ||
     (length == |NearOpcode(kind)| + 4 && code[p..p + length - 4] == NearOpcode(kind) &&
      target == p + length + Signed32(code[p + length - 4], code[p + length - 3], code[p + length - 2], code[p + length - 1])))
  }

  lemma Signed8Back(d: int)
    requires -128 <= d <= 127
    ensures Signed8(d % 256) == d
  {
  }

  lemma Signed32Back(d: int)
    requires -0x8000_0000 <= d < 0x8000_0000
    ensures Signed32(d % 256, d / 256 % 256, d / 65536 % 256, d / 16777216 % 256) == d
  {
    var d1 := d / 256;
    var d2 := d1 / 256;
    var d3 := d2 / 256;
    assert d / 65536 == d2 && d / 16777216 == d3;
    assert d == d % 256 + 256 * (d1 % 256) + 65536 * (d2 % 256) + 16777216 * d3;
    assert -128 <= d3 < 128;
    Signed8Back(d3);
  }

  lemma ByteStands(code: seq<byte>, p: int, bytes: seq<byte>, k: nat)
    requires Stands(code, p, bytes) && k < |bytes|
    ensures p + k < |code| && code[p + k] == bytes[k]
  {
    assert code[p..p + |bytes|][k] == bytes[k];
  }

  lemma ShortLands(code: seq<byte>, p: int, kind: Kind, d: int)
    requires -128 <= d <= 127 && Stands(code, p, [ShortOpcode(kind), d % 256])
    ensures JumpAt(code, p, kind, 2, p + 2 + d)
  {
    ByteStands(code, p, [ShortOpcode(kind), d % 256], 0);
    ByteStands(code, p, [ShortOpcode(kind), d % 256], 1);
    Signed8Back(d);
  }

  lemma NearLands(code: seq<byte>, p: int, kind: Kind, d: int)
    requires -0x8000_0000 <= d < 0x8000_0000 && Stands(code, p, NearOpcode(kind) + LowBytes(d))
    ensures var n := |NearOpcode(kind)| + 4; JumpAt(code, p, kind, n, p + n + d)
  {
    var op, low := NearOpcode(kind), LowBytes(d);
    NearDisplacement(code, p, op, low);
    Signed32Back(d);
    assert code[p..p + |op|] == code[p..p + |op + low|][..|op|] == op;
  }

  lemma NearDisplacement(code: seq<byte>, p: int, op: seq<byte>, low: seq<byte>)
    requires |low| == 4 && Stands(code, p, op + low)
    ensures var q := p + |op|; code[q] == low[0] && code[q + 1] == low[1] && code[q + 2] == low[2] && code[q + 3] == low[3]
  {
    forall k: nat | k < 4 ensures code[p + |op| + k] == low[k] {
      ByteStands(code, p, op + low, |op| + k);
    }
  }

  // What printJMP writes, the processor reads.
  lemma EncodeLands(code: seq<byte>, p: int, kind: Kind, offset: int, variant: int)
    requires 0 <= variant <= 1 && JmpSize(kind, offset, variant).1 == variant && Stands(code, p, Encode(kind, offset, variant))
    requires -0x7FFF_FFF0 <= offset < 0x7FFF_FFF0
    ensures JumpAt(code, p, kind, SizeOf(kind, variant), p + offset)
  {
    if variant == 0 {
      ShortLands(code, p, kind, offset - 2);
    } else {
      NearLands(code, p, kind, offset - SizeOf(kind, 1));
    }
  }

  // A jump of this kind is taken by the processor for exactly these values in the tested register.
  predicate TakenFor(kind: Kind, value: int)
  {
    match kind case Jmp => true case Jz => value == 0 case Jnz => value != 0
  }

  lemma JumpGoes(code: seq<byte>, p: int, kind: Kind, length: int, target: int, value: int)
    requires JumpAt(code, p, kind, length, target)
    ensures GoesTo(code, p, value == 0) == Some(if TakenFor(kind, value) then target else p + length)
  {
    if code[p] != ShortOpcode(kind) || length != 2 || target != p + 2 + Signed8(code[p + 1]) {
      var op := NearOpcode(kind);
      ByteStands(code, p, op, 0);
      if |op| == 2 { ByteStands(code, p, op, 1); }
    }
  }
}
