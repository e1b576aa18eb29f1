/** Byte sequences: little-endian integers, and parts of a sequence. */
module ByteStrings {
  import opened Types

  const TWO_32: int := 0x1_0000_0000

  // ----- little-endian integers -----

  function Low8(v: int): uint8 { v % 256 }

  /** The four bytes that the assembler emits for a 32-bit value. */
  function Bytes32(v: int): (b: seq<uint8>)
    ensures |b| == 4
  {
    var u := v % TWO_32;
    [u % 256, (u / 0x100) % 256, (u / 0x1_0000) % 256, (u / 0x100_0000) % 256]
  }

  /** The two bytes of a 16-bit value, lowest first. */
  function Bytes16(v: nat): (b: seq<uint8>)
    ensures |b| == 2
  {
    [v % 256, (v / 256) % 256]
  }

  function Value32(b: seq<uint8>): (v: int)
    requires |b| == 4
    ensures 0 <= v < TWO_32
  {
    var b0: int, b1: int, b2: int, b3: int := b[0], b[1], b[2], b[3];
    b0 + 0x100 * b1 + 0x1_0000 * b2 + 0x100_0000 * b3
  }

  lemma {:induction false} Value32OfBytes(v: int)
    ensures Value32(Bytes32(v)) == v % TWO_32
  {
    var u := v % TWO_32;
    assert u == u % 256 + 256 * (u / 256);
    assert u / 0x1_0000 == (u / 256) / 256;
    assert u / 0x100_0000 == (u / 0x1_0000) / 256;
    assert u / 0x100_0000 < 256;
  }

  // ----- parts -----

  /** `part` sits at offset `pc` of `data`. */
  predicate At(data: seq<uint8>, pc: nat, part: seq<uint8>)
  {
    pc + |part| <= |data| && data[pc..pc + |part|] == part
  }

  lemma {:induction false} AtIndex(data: seq<uint8>, pc: nat, part: seq<uint8>, i: nat)
    requires At(data, pc, part) && i < |part|
    ensures data[pc + i] == part[i]
  {
    assert data[pc..pc + |part|][i] == part[i];
  }

  lemma {:induction false} AtPart(data: seq<uint8>, pc: nat, a: seq<uint8>, b: seq<uint8>, c: seq<uint8>)
    requires At(data, pc, a + b + c)
    ensures At(data, pc + |a|, b)
  {
    var whole := a + b + c;
    forall i | 0 <= i < |b| ensures data[pc + |a| + i] == b[i] {
      AtIndex(data, pc, whole, |a| + i);
      assert whole[|a| + i] == b[i];
    }
  }

  lemma {:induction false} AtConcat(data: seq<uint8>, pc: nat, a: seq<uint8>, b: seq<uint8>)
    requires At(data, pc, a + b)
    ensures At(data, pc, a) && At(data, pc + |a|, b)
  {
    assert a + b == [] + a + b;
    AtPart(data, pc, [], a, b);
    assert a + b == a + b + [];
    AtPart(data, pc, a, b, []);
  }
}
