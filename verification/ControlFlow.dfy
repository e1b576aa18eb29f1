/** The block builder preserves control flow: whatever the order of the basic blocks, running the
    emitted bytes behind a basic block goes where the subgraph says. */
module ControlFlow {
  import opened Conditions
  import opened Types
  import opened ByteStrings
  import opened BasicBlocks
  import opened Layout
  import opened LayoutTheorems
  import opened X86
  import opened Emission

  /** The successor that the subgraph selects under the given flags. */
  function Selected(successors: seq<Successor>, f: Flags): (j: nat)
    requires HasValidSuccessors(successors) && |successors| > 0
    ensures j < |successors| && Holds(successors[j].condition, f)
    ensures forall i :: 0 <= i < |successors| && Holds(successors[i].condition, f) ==> i == j
  {
    if |successors| == 2 then
      InversionNegates(successors[1].condition, f);
      if Holds(successors[0].condition, f) then 0 else 1
    else 0
  }

  /** Where the subgraph says control goes: the start of a basic block of this block, or out of the
      block through a four byte pc-relative reference. */
  function Where(l: LayoutMap, block: BlockId, ref: BasicBlockReference): Control
    requires ref.ToBasicBlock? ==> ref.bb in l
  {
    Destination(l, block, false, ref)
  }

  /** A reference leads to a laid out basic block, or to a block other than the one being built. */
  predicate LeadsSomewhere(l: LayoutMap, block: BlockId, ref: BasicBlockReference)
  {
    if ref.ToBasicBlock? then ref.bb in l else ref.block != block
  }

  /** `info` represents a code block with valid successors that is followed by `next`. */
  predicate Lowers(l: LayoutMap, info: BasicBlockLayoutInfo, next: Option<BBId>)
  {
    && CanEmitInfo(l, info)
    && info.basicBlock.Code?
    && var succs := info.basicBlock.successors;
    && HasValidSuccessors(succs)
    && |succs| > 0
    && LeadsSomewhere(l, info.block, succs[0].reference)
    && (|succs| == 2 ==> LeadsSomewhere(l, info.block, succs[1].reference))
    && SameSlot(InitialSlots(succs, next)[0], info.successors[0])
    && SameSlot(InitialSlots(succs, next)[1], info.successors[1])
    && (next.Some? ==> next.value in l && l[next.value].block == info.block)
  }

  function BranchesEnd(info: BasicBlockLayoutInfo): nat
    requires |info.successors| == 2
  {
    info.startOffset + TotalSize(info)
  }

  /** The bytes and the reference of branch `i` are in the finished block. */
  predicate ContainsBranch(data: seq<uint8>, refs: ReferenceMap, l: LayoutMap, info: BasicBlockLayoutInfo, i: nat)
    requires CanEmitInfo(l, info) && i < 2
  {
    info.successors[i].Manifested? ==>
      && At(data, BranchStart(info, i), SlotBytes(l, info, i))
      && Operand(info, i) in refs && refs[Operand(info, i)] == SlotReference(l, info, i)
      && 0 <= EncodedTarget(l, info, i) <= |data|
  }

  predicate Contains(data: seq<uint8>, refs: ReferenceMap, l: LayoutMap, info: BasicBlockLayoutInfo)
    requires CanEmitInfo(l, info)
  {
    |data| < 0x8000_0000 && ContainsBranch(data, refs, l, info, 0) && ContainsBranch(data, refs, l, info, 1)
  }

  /** Executes up to `branches` branches from `pc`, until one of them is taken. */
  function Follow(data: seq<uint8>, refs: ReferenceMap, block: BlockId, pc: nat, branches: nat, f: Flags): Control
    decreases branches
  {
    if branches == 0 then In(pc)
    else
      var d := Decode(data, pc);
      if d.DecodedBranch? && !Holds(d.condition, f) then Follow(data, refs, block, pc + d.length, branches - 1, f)
      else Step(data, refs, block, pc, f)
  }

  function BranchCount(info: BasicBlockLayoutInfo): nat
    requires |info.successors| == 2
  {
    (if info.successors[0].Manifested? then 1 else 0) + (if info.successors[1].Manifested? then 1 else 0)
  }

  /** What the branches of a basic block must do under flags `f`: fall through behind the last one
      if the selected successor is elided, otherwise go where the selected successor leads. */
  function Expected(l: LayoutMap, info: BasicBlockLayoutInfo, next: Option<BBId>, f: Flags): Control
    requires Lowers(l, info, next)
  {
    var s := info.basicBlock.successors[Selected(info.basicBlock.successors, f)];
    if LeadsToNext(s, next) then In(BranchesEnd(info)) else Where(l, info.block, s.reference)
  }

  /** The branches of a basic block, executed on the bytes of the block, do what the subgraph says. */
  predicate BranchesCorrect(data: seq<uint8>, refs: ReferenceMap, l: LayoutMap, info: BasicBlockLayoutInfo,
                            next: Option<BBId>, f: Flags)
    requires Lowers(l, info, next)
  {
    Follow(data, refs, info.block, BranchStart(info, 0), BranchCount(info), f) == Expected(l, info, next, f)
  }

  /** What the branch in slot `i` does. */
  predicate BranchBehaves(data: seq<uint8>, refs: ReferenceMap, l: LayoutMap, info: BasicBlockLayoutInfo, i: nat,
                          f: Flags)
    requires CanEmitInfo(l, info) && i < 2 && info.successors[i].Manifested?
  {
    var s := info.successors[i];
    var d := Decode(data, BranchStart(info, i));
    && d.DecodedBranch? && d.condition == s.condition && d.length == s.size
    && (Holds(s.condition, f) ==>
          (Step(data, refs, info.block, BranchStart(info, i), f) == Where(l, info.block, s.reference) <==>
             BranchFits(l, info, i)))
  }

  lemma {:induction false} OneBranch(data: seq<uint8>, refs: ReferenceMap, l: LayoutMap, info: BasicBlockLayoutInfo,
                  next: Option<BBId>, i: nat, f: Flags)
    requires Lowers(l, info, next) && Contains(data, refs, l, info)
    requires i < 2 && info.successors[i].Manifested?
    ensures BranchBehaves(data, refs, l, info, i, f)
  {
    var s := info.successors[i];
    assert ContainsBranch(data, refs, l, info, i);
    assert SameSlot(InitialSlots(info.basicBlock.successors, next)[i], s);
    assert LeadsSomewhere(l, info.block, s.reference);
    hide Lowers, Emittable, Decode, BranchBytes, At, SlotBytes, Step;
    BranchStep(data, refs, l, info, i, f);
  }

  /** The result of following the branches, given what each of them does. */
  lemma {:induction false} FollowBranches(data: seq<uint8>, refs: ReferenceMap, l: LayoutMap,
                                          info: BasicBlockLayoutInfo, f: Flags)
    requires CanEmitInfo(l, info)
    requires info.successors[0].Manifested? ==> BranchBehaves(data, refs, l, info, 0, f)
    requires info.successors[1].Manifested? ==> BranchBehaves(data, refs, l, info, 1, f)
    ensures var s0, s1 := info.successors[0], info.successors[1];
      var result := Follow(data, refs, info.block, BranchStart(info, 0), BranchCount(info), f);
      if s0.Manifested? && Holds(s0.condition, f) then
        result == Step(data, refs, info.block, BranchStart(info, 0), f)
      else if s1.Manifested? && Holds(s1.condition, f) then
        result == Step(data, refs, info.block, BranchStart(info, 1), f)
      else result == In(BranchesEnd(info))
  {
    var s0, s1 := info.successors[0], info.successors[1];
    var pc := BranchStart(info, 1);
    assert s1.Manifested? && !Holds(s1.condition, f) ==>
      Follow(data, refs, info.block, pc, 1, f) == Follow(data, refs, info.block, pc + s1.size, 0, f);
  }

  /** Where the branches lead: to the target of the first one whose condition holds, if its branch fits. */
  lemma {:induction false} BothBranches(data: seq<uint8>, refs: ReferenceMap, l: LayoutMap, info: BasicBlockLayoutInfo,
                     next: Option<BBId>, f: Flags)
    requires Lowers(l, info, next) && Contains(data, refs, l, info)
    ensures var s0, s1 := info.successors[0], info.successors[1];
      var result := Follow(data, refs, info.block, BranchStart(info, 0), BranchCount(info), f);
      if s0.Manifested? && Holds(s0.condition, f) then
        result == Where(l, info.block, s0.reference) <==> BranchFits(l, info, 0)
      else if s1.Manifested? && Holds(s1.condition, f) then
        result == Where(l, info.block, s1.reference) <==> BranchFits(l, info, 1)
      else result == In(BranchesEnd(info))
  {
    if info.successors[0].Manifested? { OneBranch(data, refs, l, info, next, 0, f); }
    if info.successors[1].Manifested? { OneBranch(data, refs, l, info, next, 1, f); }
    FollowBranches(data, refs, l, info, f);
  }

  /** The first branch whose condition holds is that of the selected successor; if there is none, the
      selected successor is elided. */
  lemma {:induction false} SelectedSlot(succs: seq<Successor>, next: Option<BBId>, s0: SuccessorLayoutInfo,
                                        s1: SuccessorLayoutInfo, f: Flags)
    requires HasValidSuccessors(succs) && |succs| > 0
    requires SameSlot(InitialSlots(succs, next)[0], s0) && SameSlot(InitialSlots(succs, next)[1], s1)
    ensures var s := succs[Selected(succs, f)];
      if s0.Manifested? && Holds(s0.condition, f) then !LeadsToNext(s, next) && s.reference == s0.reference
      else if s1.Manifested? && Holds(s1.condition, f) then !LeadsToNext(s, next) && s.reference == s1.reference
      else LeadsToNext(s, next)
  {
    var j := Selected(succs, f);
    if |succs| == 2 {
      InversionNegates(succs[1].condition, f);
    }
  }

  /** If both branches fit, they are correct under all flags. */
  lemma {:induction false} FittingBranchesCorrect(data: seq<uint8>, refs: ReferenceMap, l: LayoutMap,
                                                  info: BasicBlockLayoutInfo, next: Option<BBId>, f: Flags)
    requires Lowers(l, info, next) && Contains(data, refs, l, info)
    requires BranchFits(l, info, 0) && BranchFits(l, info, 1)
    ensures BranchesCorrect(data, refs, l, info, next, f)
  {
    BothBranches(data, refs, l, info, next, f);
    SelectedSlot(info.basicBlock.successors, next, info.successors[0], info.successors[1], f);
  }

  /** Flags under which a condition holds, and flags under which it does not. */
  function Satisfying(c: Condition): (f: Flags)
    requires c != INVALID_CONDITION
    ensures Holds(c, f)
  {
    if c in {1, 3, 5, 9, 11, 13, 15, 7} then Flags(false, false, false, false, false)
    else if c == 12 then Flags(false, false, false, true, false)
    else Flags(true, true, true, true, true)
  }

  /** A branch that does not fit goes wrong under some flags. */
  lemma {:induction false} UnfittingBranchGoesWrong(data: seq<uint8>, refs: ReferenceMap, l: LayoutMap,
                                                    info: BasicBlockLayoutInfo, next: Option<BBId>)
    requires Lowers(l, info, next) && Contains(data, refs, l, info)
    requires !BranchFits(l, info, 0) || !BranchFits(l, info, 1)
    ensures exists f :: !BranchesCorrect(data, refs, l, info, next, f)
  {
    var succs := info.basicBlock.successors;
    var s0, s1 := info.successors[0], info.successors[1];
    var f := if !BranchFits(l, info, 0) then Satisfying(s0.condition) else Satisfying(succs[1].condition);
    BothBranches(data, refs, l, info, next, f);
    var j := Selected(succs, f);
    assert !BranchesCorrect(data, refs, l, info, next, f);
  }

  /** The bytes behind a basic block implement its successors under all flags if and only if every
      branch fits its encoding. */
  lemma {:induction false} BranchesCorrectIff(data: seq<uint8>, refs: ReferenceMap, l: LayoutMap,
                                              info: BasicBlockLayoutInfo, next: Option<BBId>)
    requires Lowers(l, info, next) && Contains(data, refs, l, info)
    ensures (forall f :: BranchesCorrect(data, refs, l, info, next, f)) <==>
            BranchFits(l, info, 0) && BranchFits(l, info, 1)
  {
    if BranchFits(l, info, 0) && BranchFits(l, info, 1) {
      forall f ensures BranchesCorrect(data, refs, l, info, next, f) {
        FittingBranchesCorrect(data, refs, l, info, next, f);
      }
    } else {
      UnfittingBranchGoesWrong(data, refs, l, info, next);
    }
  }

  // ----- the finished block -----

  predicate HasBranches(order: seq<BBId>, l: LayoutMap, k: nat)
    requires k < |order| && order[k] in l
  {
    l[order[k]].basicBlock.Code? && |l[order[k]].basicBlock.successors| > 0
  }

  /** Every code block of the order that has successors is lowered, and nothing else has branches. */
  predicate OrderLowered(order: seq<BBId>, block: BlockId, l: LayoutMap)
    requires Valid(order, block, l)
  {
    forall k :: 0 <= k < |order| ==>
      if HasBranches(order, l, k) then Lowers(l, l[order[k]], Next(order, k))
      else l[order[k]].successors == [Unused, Unused]
  }

  lemma {:induction false} ImageLength(order: seq<BBId>, block: BlockId, l: LayoutMap)
    requires CanEmit(order, block, l) && order != []
    ensures |BlockImage(order, block, l)| == EndOf(order, l, |order|)
  {
    hide Emittable, CanEmitInfo;
    SectionsChained(order, block, l);
    SectionBytesLength(Sections(order, block, l), |order|);
    assert SectionEnd(Sections(order, block, l)[|order| - 1]) == EndOf(order, l, |order| - 1 + 1);
  }

  lemma {:induction false} TargetInBlock(order: seq<BBId>, block: BlockId, l: LayoutMap, id: BBId)
    requires CanEmit(order, block, l) && id in order
    ensures l[id].startOffset + TotalSize(l[id]) <= |BlockImage(order, block, l)|
  {
    hide Placed, Emittable, CanEmitInfo, Valid, InfoBytes, InfoReferences;
    SectionsChained(order, block, l);
    var ss := Sections(order, block, l);
    var j := IndexOf(order, id);
    StartsBehindEnd(order, block, l, j);
    SectionBytesLength(ss, |ss|);
    if j < |ss| - 1 { SectionsOrdered(ss, j, |ss| - 1); }
  }

  /** The section of the basic block at position `k` is in the finished block. */
  lemma {:induction false} SectionInImage(order: seq<BBId>, block: BlockId, l: LayoutMap, k: nat)
    requires CanEmit(order, block, l) && k < |order|
    ensures EndOf(order, l, k) <= l[order[k]].startOffset
    ensures At(BlockImage(order, block, l), EndOf(order, l, k), InfoBytes(l, l[order[k]], EndOf(order, l, k)))
    ensures forall o :: o in InfoReferences(l, l[order[k]]) ==>
      && o in ImageReferences(order, block, l)
      && ImageReferences(order, block, l)[o] == InfoReferences(l, l[order[k]])[o]
  {
    SectionsChained(order, block, l);
    StartsBehindEnd(order, block, l, k);
    var ss := Sections(order, block, l);
    assert ss[k] == InfoSection(l, l[order[k]], EndOf(order, l, k));
    SectionAt(ss, k, |ss|);
    forall o | o in ss[k].references
      ensures o in SectionReferences(ss, |ss|) && SectionReferences(ss, |ss|)[o] == ss[k].references[o]
    {
      SectionReferenceIn(ss, k, |ss|, o);
    }
  }

  lemma {:induction false} SectionContains(data: seq<uint8>, refs: ReferenceMap, l: LayoutMap,
                                           info: BasicBlockLayoutInfo, end: nat)
    requires CanEmitInfo(l, info) && end <= info.startOffset
    requires At(data, end, InfoBytes(l, info, end)) && |data| < 0x8000_0000
    requires forall o :: o in InfoReferences(l, info) ==> o in refs && refs[o] == InfoReferences(l, info)[o]
    requires info.successors[0].Manifested? ==> 0 <= EncodedTarget(l, info, 0) <= |data|
    requires info.successors[1].Manifested? ==> 0 <= EncodedTarget(l, info, 1) <= |data|
    ensures Contains(data, refs, l, info)
  {
    PartsAt(data, l, info, end);
    if info.successors[0].Manifested? { OperandReference(l, info, 0); }
    if info.successors[1].Manifested? { OperandReference(l, info, 1); }
  }

  lemma {:induction false} TargetsInImage(order: seq<BBId>, block: BlockId, l: LayoutMap, k: nat, i: nat)
    requires CanEmit(order, block, l) && k < |order| && HasBranches(order, l, k)
    requires Lowers(l, l[order[k]], Next(order, k))
    requires i < 2 && l[order[k]].successors[i].Manifested?
    ensures 0 <= EncodedTarget(l, l[order[k]], i) <= |BlockImage(order, block, l)|
  {
    var info := l[order[k]];
    assert SameSlot(InitialSlots(info.basicBlock.successors, Next(order, k))[i], info.successors[i]);
    TargetInBlock(order, block, l, order[k]);
    var ref := info.successors[i].reference;
    if ref.ToBasicBlock? && l[ref.bb].block == block { TargetInBlock(order, block, l, ref.bb); }
  }

  lemma {:induction false} LoweredContains(order: seq<BBId>, block: BlockId, l: LayoutMap, k: nat)
    requires CanEmit(order, block, l) && k < |order| && HasBranches(order, l, k)
    requires Lowers(l, l[order[k]], Next(order, k)) && |BlockImage(order, block, l)| < 0x8000_0000
    ensures Contains(BlockImage(order, block, l), ImageReferences(order, block, l), l, l[order[k]])
  {
    SectionInImage(order, block, l, k);
    var info := l[order[k]];
    if info.successors[0].Manifested? { TargetsInImage(order, block, l, k, 0); }
    if info.successors[1].Manifested? { TargetsInImage(order, block, l, k, 1); }
    SectionContains(BlockImage(order, block, l), ImageReferences(order, block, l), l, info, EndOf(order, l, k));
  }

  /** The finished block implements the successors of the basic block at position `k` under all flags. */
  ghost predicate PositionCorrect(order: seq<BBId>, block: BlockId, l: LayoutMap, k: nat)
    requires CanEmit(order, block, l) && k < |order| && Lowers(l, l[order[k]], Next(order, k))
  {
    forall f :: BranchesCorrect(BlockImage(order, block, l), ImageReferences(order, block, l), l, l[order[k]],
                                Next(order, k), f)
  }

  lemma {:induction false} PositionCorrectIff(order: seq<BBId>, block: BlockId, l: LayoutMap, k: nat)
    requires CanEmit(order, block, l) && k < |order| && HasBranches(order, l, k)
    requires Lowers(l, l[order[k]], Next(order, k)) && |BlockImage(order, block, l)| < 0x8000_0000
    ensures PositionCorrect(order, block, l, k) <==> BranchFits(l, l[order[k]], 0) && BranchFits(l, l[order[k]], 1)
  {
    LoweredContains(order, block, l, k);
    BranchesCorrectIff(BlockImage(order, block, l), ImageReferences(order, block, l), l, l[order[k]], Next(order, k));
  }

  /** The finished block implements all successors of all its basic blocks. */
  ghost predicate ControlFlowPreserved(order: seq<BBId>, block: BlockId, l: LayoutMap)
    requires CanEmit(order, block, l) && OrderLowered(order, block, l)
  {
    forall k :: 0 <= k < |order| && HasBranches(order, l, k) ==> PositionCorrect(order, block, l, k)
  }

  lemma {:induction false} CorrectLayoutFits(order: seq<BBId>, block: BlockId, l: LayoutMap)
    requires CanEmit(order, block, l) && OrderLowered(order, block, l)
    requires |BlockImage(order, block, l)| < 0x8000_0000
    requires ControlFlowPreserved(order, block, l)
    ensures SelfConsistent(order, block, l)
  {
    forall id, i | id in order && 0 <= i < 2 ensures BranchFits(l, l[id], i) {
      var k := IndexOf(order, id);
      if HasBranches(order, l, k) {
        PositionCorrectIff(order, block, l, k);
      }
    }
  }

  lemma {:induction false} FittingLayoutCorrect(order: seq<BBId>, block: BlockId, l: LayoutMap)
    requires CanEmit(order, block, l) && OrderLowered(order, block, l)
    requires |BlockImage(order, block, l)| < 0x8000_0000
    requires SelfConsistent(order, block, l)
    ensures ControlFlowPreserved(order, block, l)
  {
    forall k | 0 <= k < |order| && HasBranches(order, l, k)
      ensures PositionCorrect(order, block, l, k)
    {
      PositionCorrectIff(order, block, l, k);
      assert BranchFits(l, l[order[k]], 0) && BranchFits(l, l[order[k]], 1);
    }
  }

  /** What is emitted preserves control flow exactly when every branch fits its encoding. */
  lemma {:induction false} ControlFlowPreservedIff(order: seq<BBId>, block: BlockId, l: LayoutMap)
    requires CanEmit(order, block, l) && OrderLowered(order, block, l)
    requires |BlockImage(order, block, l)| < 0x8000_0000
    ensures ControlFlowPreserved(order, block, l) <==> SelfConsistent(order, block, l)
  {
    if ControlFlowPreserved(order, block, l) { CorrectLayoutFits(order, block, l); }
    if SelfConsistent(order, block, l) { FittingLayoutCorrect(order, block, l); }
  }

  lemma {:induction false} FollowReaches(data: seq<uint8>, refs: ReferenceMap, block: BlockId, pc: nat, branches: nat,
                                         f: Flags)
    ensures Reaches(data, refs, block, f, In(pc), Follow(data, refs, block, pc, branches, f))
    decreases branches
  {
    if branches == 0 {
      ReachesSelf(data, refs, block, f, In(pc));
    } else {
      ReachesStep(data, refs, block, f, pc);
      var d := Decode(data, pc);
      if d.DecodedBranch? && !Holds(d.condition, f) {
        FollowReaches(data, refs, block, pc + d.length, branches - 1, f);
        ReachesTransitively(data, refs, block, f, In(pc), In(pc + d.length),
                            Follow(data, refs, block, pc, branches, f));
      }
    }
  }

  lemma {:induction false} PaddingReached(data: seq<uint8>, refs: ReferenceMap, block: BlockId, l: LayoutMap,
                                          info: BasicBlockLayoutInfo, end: nat, f: Flags)
    requires CanEmitInfo(l, info) && end <= info.startOffset && At(data, end, InfoBytes(l, info, end))
    ensures Reaches(data, refs, block, f, In(end), In(info.startOffset))
  {
    PartsAt(data, l, info, end);
    PaddingFallsThrough(data, refs, block, end, info.startOffset - end, f);
  }

  /** Execution falls through the padding in front of the basic block at position `k`. */
  lemma {:induction false} PaddingInImage(order: seq<BBId>, block: BlockId, l: LayoutMap, k: nat, f: Flags)
    requires CanEmit(order, block, l) && 0 < k < |order|
    ensures Reaches(BlockImage(order, block, l), ImageReferences(order, block, l), block, f,
                    In(BranchesEnd(l[order[k - 1]])), In(l[order[k]].startOffset))
  {
    SectionInImage(order, block, l, k);
    StartsBehindEnd(order, block, l, k - 1);
    PaddingReached(BlockImage(order, block, l), ImageReferences(order, block, l), block, l, l[order[k]],
                   EndOf(order, l, k), f);
  }

  /** The body of the basic block at position `k` is in the finished block. */
  lemma {:induction false} BodyInImage(order: seq<BBId>, block: BlockId, l: LayoutMap, k: nat)
    requires CanEmit(order, block, l) && k < |order|
    ensures At(BlockImage(order, block, l), l[order[k]].startOffset, BodyBytes(l[order[k]].basicBlock))
  {
    SectionInImage(order, block, l, k);
    PartsAt(BlockImage(order, block, l), l, l[order[k]], EndOf(order, l, k));
  }

  /** Where the body of the basic block at position `k` is, the finished block has the references of the body. */
  lemma {:induction false} BodyReferencesInImage(order: seq<BBId>, block: BlockId, l: LayoutMap, k: nat, o: int)
    requires CanEmit(order, block, l) && k < |order|
    requires l[order[k]].startOffset <= o < BranchStart(l[order[k]], 0)
    ensures var body, all := BodyReferences(l, l[order[k]]), ImageReferences(order, block, l);
      (o in all <==> o in body) && (o in body ==> all[o] == body[o])
  {
    hide BodyReferences, InfoBytes;
    SectionInImage(order, block, l, k);
    BodyReferenceIn(l, l[order[k]], o);
    if o in ImageReferences(order, block, l) {
      SectionsChained(order, block, l);
      StartsBehindEnd(order, block, l, k);
      SectionReferenceOwn(Sections(order, block, l), k, |order|, o);
    }
  }

  /** Running the branches of a basic block. */
  lemma {:induction false} ExecutionTakesBranches(order: seq<BBId>, block: BlockId, l: LayoutMap, k: nat, f: Flags)
    requires CanEmit(order, block, l) && SelfConsistent(order, block, l)
    requires |BlockImage(order, block, l)| < 0x8000_0000
    requires k < |order| && HasBranches(order, l, k) && Lowers(l, l[order[k]], Next(order, k))
    ensures Reaches(BlockImage(order, block, l), ImageReferences(order, block, l), block, f,
                    In(BranchStart(l[order[k]], 0)), Expected(l, l[order[k]], Next(order, k), f))
  {
    LoweredContains(order, block, l, k);
    var data, refs := BlockImage(order, block, l), ImageReferences(order, block, l);
    var info := l[order[k]];
    assert BranchFits(l, info, 0) && BranchFits(l, info, 1);
    FittingBranchesCorrect(data, refs, l, info, Next(order, k), f);
    FollowReaches(data, refs, block, BranchStart(info, 0), BranchCount(info), f);
  }

  /** Running the finished block from behind the instructions of a basic block — through its branches
      and, where its successor was elided, through the padding — reaches the start of the basic block
      that the subgraph selects, or leaves through the reference to the block it selects. */
  lemma {:induction false} ExecutionFollowsSubgraph(order: seq<BBId>, block: BlockId, l: LayoutMap, k: nat, f: Flags)
    requires CanEmit(order, block, l) && SelfConsistent(order, block, l)
    requires |BlockImage(order, block, l)| < 0x8000_0000
    requires k < |order| && HasBranches(order, l, k) && Lowers(l, l[order[k]], Next(order, k))
    ensures var succs := l[order[k]].basicBlock.successors;
      Reaches(BlockImage(order, block, l), ImageReferences(order, block, l), block, f,
              In(BranchStart(l[order[k]], 0)), Where(l, block, succs[Selected(succs, f)].reference))
  {
    ExecutionTakesBranches(order, block, l, k, f);
    var info, next := l[order[k]], Next(order, k);
    if LeadsToNext(info.basicBlock.successors[Selected(info.basicBlock.successors, f)], next) {
      PaddingInImage(order, block, l, k + 1, f);
      ReachesTransitively(BlockImage(order, block, l), ImageReferences(order, block, l), block, f,
                          In(BranchStart(info, 0)), In(BranchesEnd(info)), In(l[order[k + 1]].startOffset));
    }
  }
}
