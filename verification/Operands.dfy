/** Memory operands: how the assembler encodes them in ModR/M and SIB bytes, and a decoder that is written from
    the instruction format (section 2.1.5 of volume 2 of the Intel 64 and IA-32 Software Developer's Manual). */
module Operands {
  import opened Types
  import opened ByteStrings
  import opened X86

  /** The code of a 32-bit register. */
  type Register = r: nat | r < 8

  const ESP: Register := 4
  const EBP: Register := 5

  const MAX_INSTRUCTION_LENGTH: nat := 15

  datatype ValueSize = SizeNone | Size8 | Size32

  /** A 32-bit value that is to be encoded in the given size, and what it refers to. */
  datatype Displacement = Displacement(value: nat, size: ValueSize, reference: Option<BlockId>)

  datatype Operand = Operand(base: Option<Register>, index: Option<Register>, scale: nat, displacement: Displacement)

  /** What the operand constructors make. */
  predicate ValidOperand(op: Operand)
  {
    && op.index != Some(ESP) && op.scale < 4 && (op.index.None? ==> op.scale == 0)
    && op.displacement.value < TWO_32
    && (op.displacement.size.SizeNone? ==>
          op.displacement == Displacement(0, SizeNone, None) && (op.base.Some? || op.index.Some?))
  }

  // ----- the encoding -----

  /** [EBP] alone has no encoding without a displacement, so it gets a zero one. */
  predicate NeedsZero(op: Operand)
  {
    op.base == Some(EBP) && op.index.None? && op.displacement.size.SizeNone?
  }

  predicate UsesSib(op: Operand) { op.index.Some? || op.base == Some(ESP) }

  function ModOf(op: Operand): nat
  {
    if op.base.None? || (op.displacement.size.SizeNone? && !NeedsZero(op)) then 0
    else if op.displacement.size.Size32? then 2
    else 1
  }

  function RmOf(op: Operand): nat
  {
    if UsesSib(op) then ESP else if op.base.Some? then op.base.value else EBP
  }

  function SibBytes(op: Operand): seq<uint8>
  {
    if !UsesSib(op) then []
    else
      var index := if op.index.Some? then op.index.value else ESP;
      var base := if op.base.Some? then op.base.value else EBP;
      [(op.scale % 4) * 64 + index * 8 + base]
  }

  function DisplacementBytes(op: Operand): seq<uint8>
  {
    if op.base.None? || op.displacement.size.Size32? then Bytes32(op.displacement.value)
    else if ModOf(op) == 1 then [Low8(op.displacement.value)]
    else []
  }

  function OperandBytes(reg: Register, op: Operand): seq<uint8>
  {
    [ModOf(op) * 64 + reg * 8 + RmOf(op)] + (SibBytes(op) + DisplacementBytes(op))
  }

  // ----- the decoder -----

  /** An address as the processor computes it, and the bytes it is encoded in. */
  datatype Address = Address(reg: nat, base: Option<Register>, index: Option<Register>, scale: nat, displacement: nat,
                             length: nat)

  function Code(b: int): Register { b % 8 }

  function DisplacementWidth(mod: nat, base: Option<Register>): nat
  {
    if mod == 1 then 1 else if mod == 2 || base.None? then 4 else 0
  }

  function ReadDisplacement(b: seq<uint8>, n: nat, width: nat): nat
    requires n + width <= |b| && width in {0, 1, 4}
  {
    if width == 0 then 0 else if width == 1 then SignExtend8(b[n]) % TWO_32 else Value32(b[n..n + 4])
  }

  /** The memory operand that the bytes start with. */
  function DecodeAddress(b: seq<uint8>): Option<Address>
  {
    if |b| == 0 || b[0] / 64 == 3 then None
    else
      var mod, reg, rm := b[0] / 64, b[0] / 8 % 8, b[0] % 8;
      if rm == ESP && |b| < 2 then None
      else
        var register := if rm == ESP then Code(b[1]) else Code(b[0]);
        var base := if register == EBP && mod == 0 then None else Some(register);
        var index := if rm == ESP && Code(b[1] / 8) != ESP then Some(Code(b[1] / 8)) else None;
        var scale := if index.Some? then b[1] / 64 else 0;
        var n, width := if rm == ESP then 2 else 1, DisplacementWidth(mod, base);
        if |b| < n + width then None
        else Some(Address(reg, base, index, scale, ReadDisplacement(b, n, width), n + width))
  }

  /** The address that an operand stands for. */
  function AddressOf(reg: Register, op: Operand, length: nat): Address
  {
    Address(reg, op.base, op.index, op.scale, op.displacement.value, length)
  }

  /** A displacement that is encoded in a byte is one that a byte, sign-extended, gives back. */
  predicate SignConsistent(op: Operand)
  {
    op.base.Some? && op.displacement.size.Size8? ==>
      SignExtend8(Low8(op.displacement.value)) % TWO_32 == op.displacement.value
  }

  /** With an index and no displacement, EBP as a base is read as no base at all. */
  predicate LosesBase(op: Operand)
  {
    op.base == Some(EBP) && op.index.Some? && op.displacement.size.SizeNone?
  }

  lemma {:induction false} ReadsBack(head: seq<uint8>, d: seq<uint8>, rest: seq<uint8>, v: nat)
    requires v < TWO_32
    ensures d == Bytes32(v) ==> ReadDisplacement(head + d + rest, |head|, 4) == v
    ensures d == [Low8(v)] ==> ReadDisplacement(head + d + rest, |head|, 1) == SignExtend8(Low8(v)) % TWO_32
  {
    var b := head + d + rest;
    if d == Bytes32(v) {
      assert b[|head|..|head| + 4] == d;
      Value32OfBytes(v);
    }
  }

  lemma {:induction false} ModRmFields(mod: nat, reg: Register, rm: Register)
    requires mod < 3
    ensures var b: uint8 := mod * 64 + reg * 8 + rm;
      b / 64 == mod && b / 8 % 8 == reg && b % 8 == rm && Code(b) == rm
  {
  }

  lemma {:induction false} SibFields(scale: nat, index: Register, base: Register)
    requires scale < 4
    ensures var b: uint8 := scale * 64 + index * 8 + base;
      b / 64 == scale && Code(b / 8) == index && Code(b) == base
  {
  }

  /** The operand without a SIB byte. */
  lemma {:induction false} PlainDecodes(reg: Register, op: Operand, rest: seq<uint8>)
    requires ValidOperand(op) && !UsesSib(op)
    ensures DecodeAddress(OperandBytes(reg, op) + rest) == Some(AddressOf(reg, op, |OperandBytes(reg, op)|))
      <==> SignConsistent(op)
  {
    hide Value32, Bytes32;
    var head := [ModOf(op) * 64 + reg * 8 + RmOf(op)];
    var d := DisplacementBytes(op);
    ModRmFields(ModOf(op), reg, RmOf(op));
    ReadsBack(head, d, rest, op.displacement.value);
    assert OperandBytes(reg, op) + rest == head + d + rest;
  }

  /** The operand with a SIB byte. */
  lemma {:induction false} SibDecodes(reg: Register, op: Operand, rest: seq<uint8>)
    requires ValidOperand(op) && UsesSib(op)
    ensures DecodeAddress(OperandBytes(reg, op) + rest) == Some(AddressOf(reg, op, |OperandBytes(reg, op)|))
      <==> SignConsistent(op) && !LosesBase(op)
  {
    hide Value32, Bytes32;
    var index := if op.index.Some? then op.index.value else ESP;
    var base := if op.base.Some? then op.base.value else EBP;
    var head := [ModOf(op) * 64 + reg * 8 + RmOf(op)] + SibBytes(op);
    var d := DisplacementBytes(op);
    ModRmFields(ModOf(op), reg, RmOf(op));
    SibFields(op.scale, index, base);
    ReadsBack(head, d, rest, op.displacement.value);
    assert OperandBytes(reg, op) + rest == head + d + rest;
  }

  /** Whatever follows it, an encoded operand is decoded to itself if and only if it is not EBP plus an index
      without displacement, and its displacement, where it is encoded in a byte, is sign-consistent. */
  lemma {:induction false} OperandDecodesIff(reg: Register, op: Operand, rest: seq<uint8>)
    requires ValidOperand(op)
    ensures DecodeAddress(OperandBytes(reg, op) + rest) == Some(AddressOf(reg, op, |OperandBytes(reg, op)|))
      <==> SignConsistent(op) && !LosesBase(op)
  {
    hide DecodeAddress, OperandBytes;
    if UsesSib(op) {
      SibDecodes(reg, op, rest);
    } else {
      PlainDecodes(reg, op, rest);
    }
  }

  /** [EBP+EAX] is such an operand: followed by anything, it is not read as itself. */
  lemma {:induction false} EbpWithIndexIsLost(rest: seq<uint8>)
    ensures var op := Operand(Some(EBP), Some(0), 0, Displacement(0, SizeNone, None));
      ValidOperand(op) &&
      DecodeAddress(OperandBytes(0, op) + rest) != Some(AddressOf(0, op, |OperandBytes(0, op)|))
  {
    hide DecodeAddress, OperandBytes;
    OperandDecodesIff(0, Operand(Some(EBP), Some(0), 0, Displacement(0, SizeNone, None)), rest);
  }

  // ----- the instruction buffer -----

  /** A reference that is encoded at an offset of an instruction. */
  datatype ReferenceInfo = ReferenceInfo(offset: nat, reference: BlockId, size: ValueSize)

  /** The reference of an operand sits where the operand's displacement does. */
  function OperandReferences(op: Operand, offset: nat): seq<ReferenceInfo>
  {
    if op.displacement.reference.None? then []
    else [ReferenceInfo(offset + 1 + |SibBytes(op)|, op.displacement.reference.value,
                        if |DisplacementBytes(op)| == 4 then Size32 else Size8)]
  }

  lemma {:induction false} LowBytes(v: nat)
    requires v < TWO_32
    ensures Bytes32(v) == [Low8(v), Low8(v / 0x100), Low8(v / 0x1_0000), Low8(v / 0x100_0000)]
  {
  }

  class InstructionBuffer {
    const buf: array<uint8>
    var len: nat
    var references: seq<ReferenceInfo>

    ghost predicate Valid()
      reads this
    {
      len <= buf.Length == MAX_INSTRUCTION_LENGTH
    }

    ghost function Contents(): seq<uint8>
      requires Valid()
      reads this, buf
    {
      buf[..len]
    }

    constructor ()
      ensures Valid() && fresh(buf) && Contents() == [] && references == []
    {
      buf := new uint8[MAX_INSTRUCTION_LENGTH];
      len := 0;
      references := [];
    }

    method EmitByte(byte: int)
      requires Valid() && len < MAX_INSTRUCTION_LENGTH
      modifies this`len, buf
      ensures Valid() && Contents() == old(Contents()) + [Low8(byte)] && len == old(len) + 1
    {
      buf[len] := Low8(byte);
      len := len + 1;
    }

    method EmitModRMByte(mod: nat, reg: Register, rm: Register)
      requires Valid() && len < MAX_INSTRUCTION_LENGTH && mod < 4
      modifies this`len, buf
      ensures Valid() && Contents() == old(Contents()) + [mod * 64 + reg * 8 + rm] && len == old(len) + 1
    {
      EmitByte(mod * 64 + reg * 8 + rm);
    }

    method EmitScaleIndexBaseByte(scale: nat, index: Register, base: Register)
      requires Valid() && len < MAX_INSTRUCTION_LENGTH && scale < 4
      modifies this`len, buf
      ensures Valid() && Contents() == old(Contents()) + [scale * 64 + index * 8 + base] && len == old(len) + 1
    {
      EmitByte(scale * 64 + index * 8 + base);
    }

    /** A ModR/M byte that announces a SIB byte, and the SIB byte. */
    method EmitWithSib(mod: nat, reg: Register, scale: nat, index: Register, base: Register)
      requires Valid() && len + 2 <= MAX_INSTRUCTION_LENGTH && mod < 4 && scale < 4
      modifies this`len, buf
      ensures Valid() && len == old(len) + 2
      ensures Contents() == old(Contents()) + [mod * 64 + reg * 8 + ESP, scale * 64 + index * 8 + base]
    {
      EmitModRMByte(mod, reg, ESP);
      EmitScaleIndexBaseByte(scale, index, base);
    }

    method AddReference(reference: Option<BlockId>, size: ValueSize)
      requires Valid()
      modifies this`references
      ensures references == old(references) +
        if reference.None? then [] else [ReferenceInfo(len, reference.value, size)]
    {
      if reference.None? {
        return;
      }
      references := references + [ReferenceInfo(len, reference.value, size)];
    }

    method Emit8BitDisplacement(d: Displacement)
      requires Valid() && len < MAX_INSTRUCTION_LENGTH
      modifies this, buf
      ensures Valid() && Contents() == old(Contents()) + [Low8(d.value)] && len == old(len) + 1
      ensures references == old(references) +
        if d.reference.None? then [] else [ReferenceInfo(old(len), d.reference.value, Size8)]
    {
      AddReference(d.reference, Size8);
      EmitByte(d.value);
    }

    method Emit32BitDisplacement(d: Displacement)
      requires Valid() && len + 4 <= MAX_INSTRUCTION_LENGTH && d.value < TWO_32
      modifies this, buf
      ensures Valid() && Contents() == old(Contents()) + Bytes32(d.value) && len == old(len) + 4
      ensures references == old(references) +
        if d.reference.None? then [] else [ReferenceInfo(old(len), d.reference.value, Size32)]
    {
      LowBytes(d.value);
      hide Low8, Bytes32;
      AddReference(d.reference, Size32);
      var value := d.value;
      EmitByte(value);
      EmitByte(value / 0x100);
      EmitByte(value / 0x1_0000);
      EmitByte(value / 0x100_0000);
    }

    /** Base ESP: its number in ModR/M announces a SIB byte, so it takes one. */
    method EmitStackBase(reg: Register, op: Operand)
      requires Valid() && len + 6 <= MAX_INSTRUCTION_LENGTH && ValidOperand(op)
      requires op.index.None? && op.base == Some(ESP)
      modifies this, buf
      ensures Valid() && Contents() == old(Contents()) + OperandBytes(reg, op)
      ensures references == old(references) + OperandReferences(op, old(len))
    {
      hide Bytes32, Low8;
      var d := op.displacement;
      if d.size.SizeNone? {
        EmitWithSib(0, reg, 0, ESP, ESP);
      } else if d.size.Size8? {
        EmitWithSib(1, reg, 0, ESP, ESP);
        Emit8BitDisplacement(d);
      } else {
        EmitWithSib(2, reg, 0, ESP, ESP);
        Emit32BitDisplacement(d);
      }
    }

    /** An operand with a base and no index. */
    method EmitBase(reg: Register, op: Operand, base: Register)
      requires Valid() && len + 6 <= MAX_INSTRUCTION_LENGTH && ValidOperand(op)
      requires op.index.None? && op.base == Some(base)
      modifies this, buf
      ensures Valid() && Contents() == old(Contents()) + OperandBytes(reg, op)
      ensures references == old(references) + OperandReferences(op, old(len))
    {
      hide Bytes32, Low8;
      var d := op.displacement;
      if base == ESP {
        EmitStackBase(reg, op);
      } else if d.size.SizeNone? {
        if base == EBP {
          EmitModRMByte(1, reg, base);
          Emit8BitDisplacement(Displacement(0, Size8, None));
        } else {
          EmitModRMByte(0, reg, base);
        }
      } else if d.size.Size8? {
        EmitModRMByte(1, reg, base);
        Emit8BitDisplacement(d);
      } else {
        EmitModRMByte(2, reg, base);
        Emit32BitDisplacement(d);
      }
    }

    /** An operand with a base and an index. */
    method EmitBaseAndIndex(reg: Register, op: Operand, base: Register, index: Register)
      requires Valid() && len + 6 <= MAX_INSTRUCTION_LENGTH && ValidOperand(op)
      requires op.index == Some(index) && op.base == Some(base)
      modifies this, buf
      ensures Valid() && Contents() == old(Contents()) + OperandBytes(reg, op)
      ensures references == old(references) + OperandReferences(op, old(len))
    {
      hide Bytes32, Low8;
      var d := op.displacement;
      if d.size.SizeNone? {
        EmitWithSib(0, reg, op.scale, index, base);
      } else if d.size.Size8? {
        EmitWithSib(1, reg, op.scale, index, base);
        Emit8BitDisplacement(d);
      } else {
        EmitWithSib(2, reg, op.scale, index, base);
        Emit32BitDisplacement(d);
      }
    }

    method EmitOperand(reg: Register, op: Operand)
      requires Valid() && len + 6 <= MAX_INSTRUCTION_LENGTH && ValidOperand(op)
      modifies this, buf
      ensures Valid() && Contents() == old(Contents()) + OperandBytes(reg, op)
      ensures references == old(references) + OperandReferences(op, old(len))
    {
      if op.index.None? {
        if op.base.None? {
          // Without a displacement, EBP stands for no base at all.
          EmitModRMByte(0, reg, EBP);
          Emit32BitDisplacement(op.displacement);
        } else {
          EmitBase(reg, op, op.base.value);
        }
      } else if op.base.None? {
        EmitModRMByte(0, reg, ESP);
        EmitScaleIndexBaseByte(op.scale, op.index.value, EBP);
        Emit32BitDisplacement(op.displacement);
      } else {
        EmitBaseAndIndex(reg, op, op.base.value, op.index.value);
      }
    }
  }
}
