/** The fragment of the x86 instruction encoding that the block builder emits, with a decoder that
    is written from the instruction format and not from the encoders: branches, jumps, and the
    multi-byte NOPs with their ModR/M and SIB bytes. */
module X86 {
  import opened Conditions
  import opened Types
  import opened ByteStrings

  function SignExtend8(b: uint8): int { if b < 128 then b else b - 256 }

  function SignExtend32(v: int): int { if v < 0x8000_0000 then v else v - TWO_32 }

  /** A displacement survives truncation to a byte exactly when it fits a signed byte. */
  lemma {:induction false} SignExtend8OfLow(d: int)
    ensures SignExtend8(Low8(d)) == d <==> -128 <= d <= 127
  {
  }

  lemma {:induction false} SignExtend32OfBytes(d: int)
    requires -0x8000_0000 <= d < 0x8000_0000
    ensures SignExtend32(Value32(Bytes32(d))) == d
  {
    Value32OfBytes(d);
  }

  // ----- encoders -----

  /** The short or long encoding of a branch at `location` to `dest`. */
  function BranchBytes(c: Condition, short: bool, location: int, dest: int): seq<uint8>
    requires c != INVALID_CONDITION
  {
    if c == CONDITION_TRUE then
      if short then [0xEB, Low8(dest - (location + 2))] else [0xE9] + Bytes32(dest - (location + 5))
    else
      if short then [0x70 + c, Low8(dest - (location + 2))] else [0x0F, 0x80 + c] + Bytes32(dest - (location + 6))
  }

  /** Where the displacement of a branch starts, counted from its first byte. */
  function OpcodeSize(c: Condition, short: bool): nat
  {
    if !short && c != CONDITION_TRUE then 2 else 1
  }

  /** The table of NOPs by length. */
  function Nop(n: nat): (b: seq<uint8>)
    requires 1 <= n <= 9
    ensures |b| == n
  {
    match n
    case 1 => [0x90]
    case 2 => [0x66, 0x90]
    case 3 => [0x66, 0x66, 0x90]
    case 4 => [0x0F, 0x1F, 0x40, 0x00]
    case 5 => [0x0F, 0x1F, 0x44, 0x00, 0x00]
    case 6 => [0x66, 0x0F, 0x1F, 0x44, 0x00, 0x00]
    case 7 => [0x0F, 0x1F, 0x80, 0x00, 0x00, 0x00, 0x00]
    case 8 => [0x0F, 0x1F, 0x84, 0x00, 0x00, 0x00, 0x00, 0x00]
    case _ => [0x66, 0x0F, 0x1F, 0x84, 0x00, 0x00, 0x00, 0x00, 0x00]
  }

  /** The padding written over `n` bytes: nine-byte NOPs, then one for the rest. */
  function NopFill(n: nat): (b: seq<uint8>)
    ensures |b| == n
  {
    if n == 0 then [] else if n < 9 then Nop(n) else Nop(9) + NopFill(n - 9)
  }

  // ----- decoder -----

  /** The length of the ModR/M byte at `pc`, with its SIB byte and displacement. */
  function AddressLength(data: seq<uint8>, pc: nat): nat
    requires pc < |data|
  {
    var mod, rm := data[pc] / 64, data[pc] % 8;
    var sib := if mod != 3 && rm == 4 then 1 else 0;
    var disp :=
      if mod == 1 then 1
      else if mod == 2 then 4
      else if mod == 0 && (rm == 5 || (rm == 4 && pc + 1 < |data| && data[pc + 1] % 8 == 5)) then 4
      else 0;
    1 + sib + disp
  }

  /** The length of the NOP at `pc` if there is one, else zero. */
  function NopLength(data: seq<uint8>, pc: nat): nat
    decreases |data| - pc
  {
    if pc >= |data| then 0
    else if data[pc] == 0x66 then
      var rest := NopLength(data, pc + 1);
      if rest == 0 then 0 else 1 + rest
    else if data[pc] == 0x90 then 1
    else if pc + 2 < |data| && data[pc] == 0x0F && data[pc + 1] == 0x1F && (data[pc + 2] / 8) % 8 == 0 then
      var n := 2 + AddressLength(data, pc + 2);
      if pc + n <= |data| then n else 0
    else 0
  }

  datatype Decoded =
    | DecodedNop(length: nat)
    | DecodedBranch(condition: Condition, length: nat, operand: nat, displacement: int)
    | Undecodable

  function Decode(data: seq<uint8>, pc: nat): Decoded
  {
    if pc >= |data| then Undecodable
    else if NopLength(data, pc) > 0 then DecodedNop(NopLength(data, pc))
    else if pc + 2 <= |data| && data[pc] == 0xEB then
      DecodedBranch(CONDITION_TRUE, 2, pc + 1, SignExtend8(data[pc + 1]))
    else if pc + 2 <= |data| && 0x70 <= data[pc] <= 0x7F then
      DecodedBranch(data[pc] - 0x70, 2, pc + 1, SignExtend8(data[pc + 1]))
    else if pc + 5 <= |data| && data[pc] == 0xE9 then
      DecodedBranch(CONDITION_TRUE, 5, pc + 1, SignExtend32(Value32(data[pc + 1..pc + 5])))
    else if pc + 6 <= |data| && data[pc] == 0x0F && 0x80 <= data[pc + 1] <= 0x8F then
      DecodedBranch(data[pc + 1] - 0x80, 6, pc + 2, SignExtend32(Value32(data[pc + 2..pc + 6])))
    else Undecodable
  }

  lemma {:induction false} NopDecodes(data: seq<uint8>, pc: nat, n: nat)
    requires 1 <= n <= 9 && At(data, pc, Nop(n))
    ensures NopLength(data, pc) == n
  {
    forall i | 0 <= i < n ensures data[pc + i] == Nop(n)[i] { AtIndex(data, pc, Nop(n), i); }
    if n == 3 { assert NopLength(data, pc + 2) == 1; }
  }

  lemma {:induction false} ShortBranchDecodes(data: seq<uint8>, pc: nat, c: Condition, dest: int)
    requires c != INVALID_CONDITION
    requires At(data, pc, BranchBytes(c, true, pc, dest))
    ensures Decode(data, pc) == DecodedBranch(c, 2, pc + 1, SignExtend8(Low8(dest - (pc + 2))))
  {
    var b := BranchBytes(c, true, pc, dest);
    AtIndex(data, pc, b, 0);
    AtIndex(data, pc, b, 1);
  }

  lemma {:induction false} LongBranchDecodes(data: seq<uint8>, pc: nat, c: Condition, dest: int)
    requires c != INVALID_CONDITION
    requires At(data, pc, BranchBytes(c, false, pc, dest))
    ensures var n := |BranchBytes(c, false, pc, dest)|;
      Decode(data, pc) == DecodedBranch(c, n, pc + n - 4, SignExtend32(Value32(Bytes32(dest - (pc + n)))))
  {
    var b := BranchBytes(c, false, pc, dest);
    AtIndex(data, pc, b, 0);
    AtIndex(data, pc, b, 1);
    var n := |b|;
    assert b[n - 4..n] == Bytes32(dest - (pc + n));
    assert data[pc + n - 4..pc + n] == data[pc..pc + n][n - 4..n];
  }

  /** Decoding an emitted branch gives its condition and length back, and the displacement to its
      destination: for the short form exactly when that displacement fits a signed byte. */
  lemma {:induction false} BranchDecodes(data: seq<uint8>, pc: nat, c: Condition, short: bool, dest: int)
    requires c != INVALID_CONDITION
    requires At(data, pc, BranchBytes(c, short, pc, dest))
    ensures var d := Decode(data, pc);
      && d.DecodedBranch? && d.condition == c
      && d.length == |BranchBytes(c, short, pc, dest)|
      && d.operand == pc + OpcodeSize(c, short)
      && (short ==> (pc + d.length + d.displacement == dest <==> -128 <= dest - (pc + 2) <= 127))
      && (!short && -0x8000_0000 <= dest - (pc + d.length) < 0x8000_0000 ==>
            pc + d.length + d.displacement == dest)
  {
    if short {
      ShortBranchDecodes(data, pc, c, dest);
      SignExtend8OfLow(dest - (pc + 2));
    } else {
      LongBranchDecodes(data, pc, c, dest);
      var disp := dest - (pc + |BranchBytes(c, short, pc, dest)|);
      if -0x8000_0000 <= disp < 0x8000_0000 { SignExtend32OfBytes(disp); }
    }
  }
}
