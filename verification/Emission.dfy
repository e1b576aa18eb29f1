/** The bytes and references of a laid out block, and what a processor does with them.

    `BlockImage` and `ImageReferences` say what populating a block writes; the in-place loops are in
    `BlockBuilder.MergeContext`. The theorems say that running the emitted successor bytes goes
    where the subgraph says control goes next. */
module Emission {
  import opened Conditions
  import opened Types
  import opened ByteStrings
  import opened BasicBlocks
  import opened Layout
  import opened LayoutTheorems
  import opened X86

  // ----- what is emitted -----

  /** Turns a basic-block reference into a block reference; a basic block is addressed at its start. */
  function Resolve(l: LayoutMap, ref: BasicBlockReference): Reference
    requires ref.ToBasicBlock? ==> ref.bb in l
  {
    match ref
    case ToBasicBlock(kind, size, bb) => Reference(kind, size, l[bb].block, l[bb].startOffset, l[bb].startOffset)
    case ToBlock(kind, size, block, offset, base) => Reference(kind, size, block, offset, base)
  }

  predicate IsShort(s: SuccessorLayoutInfo)
    requires s.Manifested?
  {
    s.size == ShortSuccessorSize(s.condition)
  }

  /** The offset encoded in the branch of slot `i`: its target if that is in the same block,
      otherwise the offset just behind the branch. */
  function EncodedTarget(l: LayoutMap, info: BasicBlockLayoutInfo, i: nat): int
    requires ValidInfo(info, l.Keys) && i < 2 && info.successors[i].Manifested?
  {
    var s := info.successors[i];
    var resolved := Resolve(l, s.reference);
    if resolved.referenced == info.block then resolved.offset else BranchStart(info, i) + s.size
  }

  function SlotBytes(l: LayoutMap, info: BasicBlockLayoutInfo, i: nat): seq<uint8>
    requires ValidInfo(info, l.Keys) && i < 2
  {
    var s := info.successors[i];
    if s.Manifested? then BranchBytes(s.condition, IsShort(s), BranchStart(info, i), EncodedTarget(l, info, i))
    else []
  }

  /** The reference that the displacement of a branch carries. */
  function SlotReference(l: LayoutMap, info: BasicBlockLayoutInfo, i: nat): Reference
    requires ValidInfo(info, l.Keys) && i < 2 && info.successors[i].Manifested?
  {
    var s := info.successors[i];
    Resolve(l, s.reference).(kind := PC_RELATIVE_REF, size := if IsShort(s) then 1 else 4)
  }

  function SlotReferences(l: LayoutMap, info: BasicBlockLayoutInfo, i: nat): ReferenceMap
    requires ValidInfo(info, l.Keys) && i < 2
  {
    var s := info.successors[i];
    if s.Manifested? then map[BranchStart(info, i) + OpcodeSize(s.condition, IsShort(s)) := SlotReference(l, info, i)]
    else map[]
  }

  predicate ReferencesResolve(l: LayoutMap, references: map<int, BasicBlockReference>)
  {
    forall o :: o in references && references[o].ToBasicBlock? ==> references[o].bb in l
  }

  /** The references of an object placed at `offset`, those in its first `size` bytes. */
  function ShiftedReferences(l: LayoutMap, references: map<int, BasicBlockReference>, size: nat,
                             offset: int): ReferenceMap
    requires ReferencesResolve(l, references)
  {
    if size == 0 then map[]
    else if size - 1 in references then
      ShiftedReferences(l, references, size - 1, offset)[offset + size - 1 := Resolve(l, references[size - 1])]
    else ShiftedReferences(l, references, size - 1, offset)
  }

  lemma {:induction false} ShiftedReferenceAt(l: LayoutMap, references: map<int, BasicBlockReference>, size: nat,
                                              offset: int, x: int)
    requires ReferencesResolve(l, references)
    ensures var shifted := ShiftedReferences(l, references, size, offset);
      && (x in shifted <==> offset <= x < offset + size && x - offset in references)
      && (x in shifted ==> shifted[x] == Resolve(l, references[x - offset]))
  {
    if size > 0 { ShiftedReferenceAt(l, references, size - 1, offset, x); }
  }

  lemma {:induction false} ShiftedKeys(l: LayoutMap, references: map<int, BasicBlockReference>, size: nat, offset: int)
    requires ReferencesResolve(l, references)
    ensures KeysWithin(ShiftedReferences(l, references, size, offset), offset, offset + size)
  {
    forall x | x in ShiftedReferences(l, references, size, offset) ensures offset <= x < offset + size {
      ShiftedReferenceAt(l, references, size, offset, x);
    }
  }

  predicate InstructionsResolve(l: LayoutMap, instructions: seq<Instruction>)
  {
    forall i, o :: 0 <= i < |instructions| && o in instructions[i].references ==>
      && 0 <= o < |instructions[i].data|
      && (instructions[i].references[o].ToBasicBlock? ==> instructions[i].references[o].bb in l)
  }

  function InstructionReferences(l: LayoutMap, instructions: seq<Instruction>, offset: int): ReferenceMap
    requires InstructionsResolve(l, instructions)
  {
    if instructions == [] then map[]
    else
      assert forall i :: 0 <= i < |instructions[1..]| ==> instructions[1..][i] == instructions[i + 1];
      ShiftedReferences(l, instructions[0].references, |instructions[0].data|, offset)
        + InstructionReferences(l, instructions[1..], offset + |instructions[0].data|)
  }

  /** What a caller has to provide for a basic block to be emitted: references lie within the bytes
      that carry them and lead to blocks that are laid out. */
  predicate Emittable(l: LayoutMap, info: BasicBlockLayoutInfo)
  {
    && info.basicBlockSize == BasicBlockSize(info.basicBlock)
    && match info.basicBlock
       case Code(_, instructions, _) => InstructionsResolve(l, instructions)
       case Data(_, data, references) =>
         forall o :: o in references ==> 0 <= o < |data| && (references[o].ToBasicBlock? ==> references[o].bb in l)
       case End(_) => true
  }

  /** The bytes of a basic block without its successors. */
  function BodyBytes(bb: BasicBlock): (b: seq<uint8>)
    ensures |b| == BasicBlockSize(bb)
  {
    match bb
    case Code(_, instructions, _) => InstructionBytes(instructions)
    case Data(_, data, _) => data
    case End(_) => []
  }

  function BodyReferences(l: LayoutMap, info: BasicBlockLayoutInfo): ReferenceMap
    requires Emittable(l, info)
  {
    match info.basicBlock
    case Code(_, instructions, _) => InstructionReferences(l, instructions, info.startOffset)
    case Data(_, data, references) => ShiftedReferences(l, references, |data|, info.startOffset)
    case End(_) => map[]
  }

  /** A branch has one of its two encodable sizes. */
  predicate Encodable(s: SuccessorLayoutInfo)
  {
    s.Manifested? ==> s.size == ShortSuccessorSize(s.condition) || s.size == LongSuccessorSize(s.condition)
  }

  predicate CanEmitInfo(l: LayoutMap, info: BasicBlockLayoutInfo)
  {
    && ValidInfo(info, l.Keys)
    && Emittable(l, info)
    && Encodable(info.successors[0])
    && Encodable(info.successors[1])
  }

  lemma {:induction false} SlotLength(l: LayoutMap, info: BasicBlockLayoutInfo, i: nat)
    requires CanEmitInfo(l, info) && i < 2
    ensures |SlotBytes(l, info, i)| == SizeOf(info.successors[i])
  {
  }

  // ----- sections of a block -----

  /** A stretch of the new block: the bytes of one basic block and the padding in front of it. */
  datatype Section = Section(begin: nat, bytes: seq<uint8>, references: ReferenceMap)

  predicate KeysWithin(refs: ReferenceMap, lo: int, hi: int) { forall o :: o in refs ==> lo <= o < hi }

  function SectionEnd(s: Section): nat { s.begin + |s.bytes| }

  /** Sections follow each other without gaps and keep their references to themselves. */
  predicate Chained(ss: seq<Section>)
  {
    && (forall k :: 0 <= k < |ss| ==> KeysWithin(ss[k].references, ss[k].begin, SectionEnd(ss[k])))
    && (|ss| > 0 ==> ss[0].begin == 0)
    && (forall k :: 0 < k < |ss| ==> ss[k].begin == SectionEnd(ss[k - 1]))
  }

  /** The bytes of the first `n` sections. */
  function SectionBytes(ss: seq<Section>, n: nat): seq<uint8>
    requires n <= |ss|
  {
    if n == 0 then [] else SectionBytes(ss, n - 1) + ss[n - 1].bytes
  }

  function SectionReferences(ss: seq<Section>, n: nat): ReferenceMap
    requires n <= |ss|
  {
    if n == 0 then map[] else SectionReferences(ss, n - 1) + ss[n - 1].references
  }

  lemma {:induction false} SectionBytesLength(ss: seq<Section>, n: nat)
    requires Chained(ss) && n <= |ss|
    ensures |SectionBytes(ss, n)| == if n == 0 then 0 else SectionEnd(ss[n - 1])
  {
    if n > 0 { SectionBytesLength(ss, n - 1); }
  }

  lemma {:induction false} SectionAt(ss: seq<Section>, k: nat, n: nat)
    requires Chained(ss) && k < n <= |ss|
    ensures At(SectionBytes(ss, n), ss[k].begin, ss[k].bytes)
  {
    SectionBytesLength(ss, n - 1);
    SectionBytesLength(ss, n);
    var whole, before := SectionBytes(ss, n), SectionBytes(ss, n - 1);
    if k == n - 1 {
      assert whole[|before|..] == ss[k].bytes;
    } else {
      SectionAt(ss, k, n - 1);
      assert whole[ss[k].begin..SectionEnd(ss[k])] == before[ss[k].begin..SectionEnd(ss[k])];
    }
  }

  lemma {:induction false} SectionsOrdered(ss: seq<Section>, j: nat, k: nat)
    requires Chained(ss) && j < k < |ss|
    ensures SectionEnd(ss[j]) <= ss[k].begin
  {
    if j < k - 1 { SectionsOrdered(ss, j, k - 1); }
  }

  /** The references of a section are in the block, undisturbed by later sections. */
  lemma {:induction false} SectionReferenceIn(ss: seq<Section>, k: nat, n: nat, o: int)
    requires Chained(ss) && k < n <= |ss| && o in ss[k].references
    ensures o in SectionReferences(ss, n) && SectionReferences(ss, n)[o] == ss[k].references[o]
  {
    if k < n - 1 {
      SectionReferenceIn(ss, k, n - 1, o);
      SectionsOrdered(ss, k, n - 1);
    }
  }

  lemma {:induction false} SectionReferencesEnd(ss: seq<Section>, n: nat)
    requires Chained(ss) && n < |ss|
    ensures KeysWithin(SectionReferences(ss, n), 0, ss[n].begin)
  {
    if n > 0 { SectionReferencesEnd(ss, n - 1); }
  }

  /** Within a section there are no references but its own. */
  lemma {:induction false} SectionReferenceOwn(ss: seq<Section>, k: nat, n: nat, o: int)
    requires Chained(ss) && k < n <= |ss| && ss[k].begin <= o < SectionEnd(ss[k]) && o in SectionReferences(ss, n)
    ensures o in ss[k].references
  {
    if k < n - 1 {
      SectionsOrdered(ss, k, n - 1);
      SectionReferenceOwn(ss, k, n - 1, o);
    } else {
      SectionReferencesEnd(ss, k);
    }
  }

  // ----- the section of a basic block -----

  function InfoBytes(l: LayoutMap, info: BasicBlockLayoutInfo, end: nat): seq<uint8>
    requires CanEmitInfo(l, info) && end <= info.startOffset
  {
    NopFill(info.startOffset - end) + BodyBytes(info.basicBlock) + SlotBytes(l, info, 0) + SlotBytes(l, info, 1)
  }

  function InfoReferences(l: LayoutMap, info: BasicBlockLayoutInfo): ReferenceMap
    requires CanEmitInfo(l, info)
  {
    BodyReferences(l, info) + SlotReferences(l, info, 0) + SlotReferences(l, info, 1)
  }

  function InfoSection(l: LayoutMap, info: BasicBlockLayoutInfo, end: nat): Section
    requires CanEmitInfo(l, info) && end <= info.startOffset
  {
    Section(end, InfoBytes(l, info, end), InfoReferences(l, info))
  }

  lemma {:induction false} InfoSectionEnd(l: LayoutMap, info: BasicBlockLayoutInfo, end: nat)
    requires CanEmitInfo(l, info) && end <= info.startOffset
    ensures SectionEnd(InfoSection(l, info, end)) == info.startOffset + TotalSize(info)
  {
    SlotLength(l, info, 0);
    SlotLength(l, info, 1);
  }

  /** Padding, body and branches of a basic block are where its layout says. */
  lemma {:induction false} PartsAt(data: seq<uint8>, l: LayoutMap, info: BasicBlockLayoutInfo, end: nat)
    requires CanEmitInfo(l, info) && end <= info.startOffset
    requires At(data, end, InfoBytes(l, info, end))
    ensures At(data, end, NopFill(info.startOffset - end))
    ensures At(data, info.startOffset, BodyBytes(info.basicBlock))
    ensures At(data, BranchStart(info, 0), SlotBytes(l, info, 0))
    ensures At(data, BranchStart(info, 1), SlotBytes(l, info, 1))
  {
    hide NopFill, BodyBytes, SlotBytes, At;
    SlotLength(l, info, 0);
    var pad, body := NopFill(info.startOffset - end), BodyBytes(info.basicBlock);
    var s0, s1 := SlotBytes(l, info, 0), SlotBytes(l, info, 1);
    SplitAt(data, end, pad, body, s0, s1);
  }

  lemma {:induction false} SplitAt(data: seq<uint8>, pc: nat, a: seq<uint8>, b: seq<uint8>, c: seq<uint8>,
                                   d: seq<uint8>)
    requires At(data, pc, a + b + c + d)
    ensures At(data, pc, a) && At(data, pc + |a|, b)
    ensures At(data, pc + |a| + |b|, c) && At(data, pc + |a| + |b| + |c|, d)
  {
    assert a + b + c + d == a + b + (c + d);
    AtConcat(data, pc, a + b, c + d);
    AtConcat(data, pc, a, b);
    AtConcat(data, pc + |a| + |b|, c, d);
  }

  lemma {:induction false} InstructionKeys(l: LayoutMap, instructions: seq<Instruction>, offset: int)
    requires InstructionsResolve(l, instructions)
    ensures KeysWithin(InstructionReferences(l, instructions, offset), offset,
                       offset + |InstructionBytes(instructions)|)
  {
    if instructions != [] {
      assert forall i :: 0 <= i < |instructions[1..]| ==> instructions[1..][i] == instructions[i + 1];
      ShiftedKeys(l, instructions[0].references, |instructions[0].data|, offset);
      InstructionKeys(l, instructions[1..], offset + |instructions[0].data|);
    }
  }

  lemma {:induction false} BodyKeys(l: LayoutMap, info: BasicBlockLayoutInfo)
    requires CanEmitInfo(l, info)
    ensures KeysWithin(BodyReferences(l, info), info.startOffset, BranchStart(info, 0))
  {
    if info.basicBlock.Code? {
      InstructionKeys(l, info.basicBlock.instructions, info.startOffset);
    } else if info.basicBlock.Data? {
      ShiftedKeys(l, info.basicBlock.references, |info.basicBlock.data|, info.startOffset);
    }
  }

  lemma {:induction false} InfoKeys(l: LayoutMap, info: BasicBlockLayoutInfo)
    requires CanEmitInfo(l, info)
    ensures KeysWithin(InfoReferences(l, info), info.startOffset, info.startOffset + TotalSize(info))
  {
    BodyKeys(l, info);
  }

  /** In front of the branches there are the references of the body, and no others. */
  lemma {:induction false} BodyReferenceIn(l: LayoutMap, info: BasicBlockLayoutInfo, o: int)
    requires CanEmitInfo(l, info) && o < BranchStart(info, 0)
    ensures o in InfoReferences(l, info) <==> o in BodyReferences(l, info)
    ensures o in BodyReferences(l, info) ==> InfoReferences(l, info)[o] == BodyReferences(l, info)[o]
  {
    hide BodyReferences;
    assert o !in SlotReferences(l, info, 0) && o !in SlotReferences(l, info, 1);
  }

  /** The position of a branch's displacement. */
  function Operand(info: BasicBlockLayoutInfo, i: nat): nat
    requires |info.successors| == 2 && i < 2 && info.successors[i].Manifested?
  {
    BranchStart(info, i) + OpcodeSize(info.successors[i].condition, IsShort(info.successors[i]))
  }

  /** The displacement of a branch carries its reference. */
  lemma {:induction false} OperandReference(l: LayoutMap, info: BasicBlockLayoutInfo, i: nat)
    requires CanEmitInfo(l, info) && i < 2 && info.successors[i].Manifested?
    ensures Operand(info, i) in InfoReferences(l, info)
    ensures InfoReferences(l, info)[Operand(info, i)] == SlotReference(l, info, i)
  {
    var r0, r1 := SlotReferences(l, info, 0), SlotReferences(l, info, 1);
    if i == 0 {
      assert Operand(info, 0) !in r1;
      UnionLookup(BodyReferences(l, info), r0, r1, Operand(info, 0));
    } else {
      UnionLookup(BodyReferences(l, info) + r0, r1, map[], Operand(info, 1));
    }
  }

  lemma {:induction false} UnionLookup(a: ReferenceMap, b: ReferenceMap, c: ReferenceMap, o: int)
    requires o in b && o !in c
    ensures o in a + b + c && (a + b + c)[o] == b[o]
    ensures o in a + b && (a + b)[o] == b[o]
  {
  }

  // ----- the whole block -----

  predicate CanEmit(order: seq<BBId>, block: BlockId, l: LayoutMap)
  {
    && Valid(order, block, l)
    && Placed(order, l)
    && forall id :: id in order ==> CanEmitInfo(l, l[id])
  }

  lemma {:induction false} StartsBehindEnd(order: seq<BBId>, block: BlockId, l: LayoutMap, k: nat)
    requires Valid(order, block, l) && Placed(order, l) && k < |order|
    ensures EndOf(order, l, k) <= l[order[k]].startOffset
    ensures EndOf(order, l, k + 1) == l[order[k]].startOffset + TotalSize(l[order[k]])
  {
  }

  function SectionOf(order: seq<BBId>, block: BlockId, l: LayoutMap, k: nat): Section
    requires CanEmit(order, block, l) && k < |order|
  {
    StartsBehindEnd(order, block, l, k);
    InfoSection(l, l[order[k]], EndOf(order, l, k))
  }

  function Sections(order: seq<BBId>, block: BlockId, l: LayoutMap): (ss: seq<Section>)
    requires CanEmit(order, block, l)
    ensures |ss| == |order|
  {
    seq(|order|, k requires 0 <= k < |order| => SectionOf(order, block, l, k))
  }

  lemma {:induction false} SectionsChained(order: seq<BBId>, block: BlockId, l: LayoutMap)
    requires CanEmit(order, block, l)
    ensures Chained(Sections(order, block, l))
    ensures forall k :: 0 <= k < |order| ==> SectionEnd(Sections(order, block, l)[k]) == EndOf(order, l, k + 1)
  {
    var ss := Sections(order, block, l);
    forall k | 0 <= k < |order|
      ensures SectionEnd(ss[k]) == EndOf(order, l, k + 1)
      ensures KeysWithin(ss[k].references, ss[k].begin, SectionEnd(ss[k]))
    {
      StartsBehindEnd(order, block, l, k);
      InfoSectionEnd(l, l[order[k]], EndOf(order, l, k));
      InfoKeys(l, l[order[k]]);
    }
  }

  /** The bytes of the finished block. */
  function BlockImage(order: seq<BBId>, block: BlockId, l: LayoutMap): (b: seq<uint8>)
    requires CanEmit(order, block, l)
  {
    SectionBytes(Sections(order, block, l), |order|)
  }

  /** The references of the finished block. */
  function ImageReferences(order: seq<BBId>, block: BlockId, l: LayoutMap): ReferenceMap
    requires CanEmit(order, block, l)
  {
    SectionReferences(Sections(order, block, l), |order|)
  }

  // ----- the processor -----

  /** Where control is after a step: at an offset of the block, gone through a reference to another
      block, or at bytes that are neither a branch nor a NOP. */
  datatype Control = In(pc: int) | Gone(reference: Reference) | Lost

  /** One step of a processor on the bytes of a block. The displacement of a branch that carries a
      reference to another block is resolved through that reference. */
  function Step(data: seq<uint8>, refs: ReferenceMap, block: BlockId, pc: nat, f: Flags): Control
  {
    match Decode(data, pc)
    case DecodedNop(n) => In(pc + n)
    case DecodedBranch(c, n, operand, displacement) =>
      if !Holds(c, f) then In(pc + n)
      else if operand in refs && refs[operand].referenced != block then Gone(refs[operand])
      else In(pc + n + displacement)
    case Undecodable => Lost
  }

  predicate StepsTo(data: seq<uint8>, refs: ReferenceMap, block: BlockId, f: Flags, a: Control, b: Control)
  {
    a.In? && a.pc >= 0 && b == Step(data, refs, block, a.pc, f)
  }

  /** A sequence of controls that the processor goes through. */
  ghost predicate Execution(data: seq<uint8>, refs: ReferenceMap, block: BlockId, f: Flags, trace: seq<Control>)
  {
    && |trace| > 0
    && forall i, j :: 0 <= i && j == i + 1 < |trace| ==> StepsTo(data, refs, block, f, trace[i], trace[j])
  }

  /** Execution gets from one control to another. */
  ghost predicate Reaches(data: seq<uint8>, refs: ReferenceMap, block: BlockId, f: Flags, from: Control, to: Control)
  {
    exists trace ::
      Execution(data, refs, block, f, trace) && trace[0] == from && trace[|trace| - 1] == to
  }

  lemma {:induction false} ReachesSelf(data: seq<uint8>, refs: ReferenceMap, block: BlockId, f: Flags, c: Control)
    ensures Reaches(data, refs, block, f, c, c)
  {
    assert Execution(data, refs, block, f, [c]);
  }

  lemma {:induction false} ReachesStep(data: seq<uint8>, refs: ReferenceMap, block: BlockId, f: Flags, pc: nat)
    ensures Reaches(data, refs, block, f, In(pc), Step(data, refs, block, pc, f))
  {
    assert Execution(data, refs, block, f, [In(pc), Step(data, refs, block, pc, f)]);
  }

  lemma {:induction false} ReachesTransitively(data: seq<uint8>, refs: ReferenceMap, block: BlockId, f: Flags,
                            a: Control, b: Control, c: Control)
    requires Reaches(data, refs, block, f, a, b) && Reaches(data, refs, block, f, b, c)
    ensures Reaches(data, refs, block, f, a, c)
  {
    var t1: seq<Control> :| Execution(data, refs, block, f, t1) && t1[0] == a && t1[|t1| - 1] == b;
    var t2: seq<Control> :| Execution(data, refs, block, f, t2) && t2[0] == b && t2[|t2| - 1] == c;
    var t := t1 + t2[1..];
    forall i, j | 0 <= i && j == i + 1 < |t|
      ensures StepsTo(data, refs, block, f, t[i], t[j])
    {
      if j >= |t1| {
        assert t[j] == t2[j - |t1| + 1] && t[i] == t2[j - |t1|];
      }
    }
    assert Execution(data, refs, block, f, t);
  }

  lemma {:induction false} NopStep(data: seq<uint8>, refs: ReferenceMap, block: BlockId, pc: nat, n: nat, f: Flags)
    requires 1 <= n <= 9 && At(data, pc, Nop(n))
    ensures Reaches(data, refs, block, f, In(pc), In(pc + n))
  {
    NopDecodes(data, pc, n);
    ReachesStep(data, refs, block, f, pc);
  }

  /** Padding does nothing: execution enters at its first byte and leaves behind its last one. */
  lemma {:induction false} PaddingFallsThrough(data: seq<uint8>, refs: ReferenceMap, block: BlockId, pc: nat, n: nat,
                                               f: Flags)
    requires At(data, pc, NopFill(n))
    ensures Reaches(data, refs, block, f, In(pc), In(pc + n))
    decreases n
  {
    if n == 0 {
      ReachesSelf(data, refs, block, f, In(pc));
    } else if n < 9 {
      NopStep(data, refs, block, pc, n, f);
    } else {
      AtConcat(data, pc, Nop(9), NopFill(n - 9));
      NopStep(data, refs, block, pc, 9, f);
      PaddingFallsThrough(data, refs, block, pc + 9, n - 9, f);
      ReachesTransitively(data, refs, block, f, In(pc), In(pc + 9), In(pc + n));
    }
  }

  /** Where the subgraph says control goes through a reference. */
  function Destination(l: LayoutMap, block: BlockId, short: bool, ref: BasicBlockReference): Control
    requires ref.ToBasicBlock? ==> ref.bb in l
  {
    var resolved := Resolve(l, ref);
    if resolved.referenced == block then In(resolved.offset)
    else Gone(resolved.(kind := PC_RELATIVE_REF, size := if short then 1 else 4))
  }

  /** One emitted branch: not taken it falls through, taken it goes to its destination — for a short
      branch within the block exactly if the displacement fits a signed byte. */
  lemma {:induction false} BranchStep(data: seq<uint8>, refs: ReferenceMap, l: LayoutMap, info: BasicBlockLayoutInfo,
                                      i: nat, f: Flags)
    requires CanEmitInfo(l, info) && i < 2 && info.successors[i].Manifested?
    requires At(data, BranchStart(info, i), SlotBytes(l, info, i))
    requires Operand(info, i) in refs && refs[Operand(info, i)] == SlotReference(l, info, i)
    requires |data| < 0x8000_0000 && 0 <= EncodedTarget(l, info, i) <= |data|
    requires info.successors[i].reference.ToBlock? ==> info.successors[i].reference.block != info.block
    ensures var d := Decode(data, BranchStart(info, i));
      d.DecodedBranch? && d.condition == info.successors[i].condition && d.length == info.successors[i].size
    ensures var s := info.successors[i];
      var step := Step(data, refs, info.block, BranchStart(info, i), f);
      && (!Holds(s.condition, f) ==> step == In(BranchStart(info, i) + s.size))
      && (Holds(s.condition, f) ==>
            (step == Destination(l, info.block, IsShort(s), s.reference) <==>
               (IsShort(s) && Resolve(l, s.reference).referenced == info.block ==>
                  ShortReaches(l, info.block, BranchStart(info, i), s))))
  {
    var s := info.successors[i];
    BranchDecodes(data, BranchStart(info, i), s.condition, IsShort(s), EncodedTarget(l, info, i));
    SlotLength(l, info, i);
  }
}
