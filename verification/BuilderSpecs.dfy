/** What holds of the layout of a whole subgraph: several orders, each in a new block of its own. */
module BuilderSpecs {
  import opened Types
  import opened BasicBlocks
  import opened Layout
  import opened LayoutTheorems
  import opened Emission
  import opened ControlFlow

  // ----- an order that has been laid out -----

  /** The order is laid out: offsets agree with sizes, every branch has one of its encodable sizes, and no
      branch would grow in another pass. */
  ghost predicate LaidOut(order: seq<BBId>, block: BlockId, l: LayoutMap)
  {
    Valid(order, block, l) && Placed(order, l) && Grown(order, l) && Expand(order, block, l) == l
  }

  lemma {:induction false} RelaxLaysOut(order: seq<BBId>, block: BlockId, l: LayoutMap)
    requires Valid(order, block, l)
    ensures LaidOut(order, block, Relax(order, block, l))
  {
    RelaxIsStable(order, block, l);
    ExpandGrows(order, block, Relax(order, block, l));
  }

  /** The records of an order are the same in both layouts. */
  ghost predicate SameOrder(order: seq<BBId>, l: LayoutMap, r: LayoutMap)
  {
    && r.Keys == l.Keys
    && (forall id :: id in l ==> r[id].block == l[id].block)
    && (forall id :: id in order && id in l ==> r[id] == l[id])
  }

  lemma {:induction false} SameStarts(order: seq<BBId>, block: BlockId, l: LayoutMap, r: LayoutMap, k: nat)
    requires Valid(order, block, l) && Valid(order, block, r) && SameOrder(order, l, r) && k < |order|
    ensures StartOf(order, r, k) == StartOf(order, l, k)
  {
    if k > 0 { SameStarts(order, block, l, r, k - 1); }
  }

  lemma {:induction false} SameExpansion(order: seq<BBId>, block: BlockId, l: LayoutMap, r: LayoutMap, id: BBId)
    requires Valid(order, block, l) && Valid(order, block, r) && SameOrder(order, l, r) && id in order
    ensures ExpandInfo(r, r[id]) == ExpandInfo(l, l[id])
  {
    assert l[id].block == block;
    forall s: SuccessorLayoutInfo, start: nat | s.Manifested? && (s.reference.ToBasicBlock? ==> s.reference.bb in l)
      ensures RequiredSuccessorSize(r, block, start, s) == RequiredSuccessorSize(l, block, start, s)
    {
      if s.reference.ToBasicBlock? && l[s.reference.bb].block == block { assert s.reference.bb in order; }
    }
  }

  /** Laying out another order leaves this one laid out. */
  lemma {:induction false} StaysLaidOut(order: seq<BBId>, block: BlockId, l: LayoutMap, r: LayoutMap)
    requires LaidOut(order, block, l) && SameOrder(order, l, r)
    ensures LaidOut(order, block, r)
  {
    forall k | 0 <= k < |order| ensures r[order[k]].startOffset == StartOf(order, r, k) {
      SameStarts(order, block, l, r, k);
    }
    forall id | id in r ensures Expand(order, block, r)[id] == r[id] {
      if id in order {
        SameExpansion(order, block, l, r, id);
        assert Expand(order, block, l)[id] == l[id];
      }
    }
  }

  /** Whether every branch fits depends on the records of the order only. */
  lemma {:induction false} StaysConsistent(order: seq<BBId>, block: BlockId, l: LayoutMap, r: LayoutMap)
    requires SelfConsistent(order, block, l) && SameOrder(order, l, r) && Placed(order, r)
    ensures SelfConsistent(order, block, r)
  {
    forall id, i | id in order && 0 <= i < 2 ensures BranchFits(r, r[id], i) {
      assert BranchFits(l, l[id], i) && l[id].block == block;
      var s := l[id].successors[i];
      if s.Manifested? && s.reference.ToBasicBlock? && l[s.reference.bb].block == block {
        assert s.reference.bb in order;
      }
    }
  }

  // ----- what a subgraph has to be like -----

  /** A new block and the basic blocks that make it up. */
  datatype Plan = Plan(block: BlockId, order: seq<BBId>)

  /** A reference leads to a basic block with a place in some order, or to a block that is not new. */
  predicate Resolvable(ref: BasicBlockReference, ids: set<BBId>, news: set<BlockId>)
  {
    if ref.ToBasicBlock? then ref.bb in ids else ref.block !in news
  }

  predicate ReferencesFit(references: map<int, BasicBlockReference>, size: nat, ids: set<BBId>, news: set<BlockId>)
  {
    forall o :: o in references ==> 0 <= o < size && Resolvable(references[o], ids, news)
  }

  /** What the builder demands of a basic block. */
  predicate WellFormed(bb: BasicBlock, ids: set<BBId>, news: set<BlockId>)
  {
    && bb.alignment > 0
    && match bb
       case Code(_, instructions, successors) =>
         && (forall i :: 0 <= i < |instructions| ==>
               ReferencesFit(instructions[i].references, |instructions[i].data|, ids, news))
         && HasValidSuccessors(successors)
         && (forall i :: 0 <= i < |successors| ==> Resolvable(successors[i].reference, ids, news))
       case Data(_, data, references) => ReferencesFit(references, |data|, ids, news)
       case End(_) => true
  }

  /** The layout record of a basic block says how it was initialized, whatever offsets and sizes it has. */
  predicate ShapedInfo(bb: BasicBlock, block: BlockId, next: Option<BBId>, info: BasicBlockLayoutInfo)
    requires bb.Code? ==> |bb.successors| <= 2
  {
    var initial := InitialInfo(bb, block, next);
    && info.basicBlock == bb && info.block == block && info.basicBlockSize == initial.basicBlockSize
    && |info.successors| == 2
    && SameSlot(initial.successors[0], info.successors[0]) && SameSlot(initial.successors[1], info.successors[1])
  }

  /** The records of an order are those of its basic blocks. */
  ghost predicate Shaped(bbs: map<BBId, BasicBlock>, plan: Plan, l: LayoutMap, news: set<BlockId>)
  {
    && Distinct(plan.order) && plan.block in news
    && forall k :: 0 <= k < |plan.order| ==> ShapedAt(bbs, plan, l, news, k)
  }

  ghost predicate ShapedAt(bbs: map<BBId, BasicBlock>, plan: Plan, l: LayoutMap, news: set<BlockId>, k: nat)
    requires k < |plan.order|
  {
    var id := plan.order[k];
    && id in bbs && WellFormed(bbs[id], l.Keys, news) && id in l
    && ShapedInfo(bbs[id], plan.block, Next(plan.order, k), l[id])
  }

  lemma {:induction false} StaysShaped(bbs: map<BBId, BasicBlock>, plan: Plan, l: LayoutMap, r: LayoutMap,
                                       news: set<BlockId>)
    requires Shaped(bbs, plan, l, news)
    requires SameShape(plan.order, l, r) || SameOrder(plan.order, l, r)
    ensures Shaped(bbs, plan, r, news)
  {
    forall k | 0 <= k < |plan.order| ensures ShapedAt(bbs, plan, r, news, k) {
      assert ShapedAt(bbs, plan, l, news, k);
      var id := plan.order[k];
      if SameShape(plan.order, l, r) {
        assert SameSlot(l[id].successors[0], r[id].successors[0]) && SameSlot(l[id].successors[1], r[id].successors[1]);
      }
    }
  }

  /** An order that is laid out as it was initialized can be emitted. */
  lemma {:induction false} LaidOutCanEmit(bbs: map<BBId, BasicBlock>, plan: Plan, l: LayoutMap, news: set<BlockId>)
    requires Shaped(bbs, plan, l, news) && LaidOut(plan.order, plan.block, l)
    ensures CanEmit(plan.order, plan.block, l)
  {
    forall id | id in plan.order ensures CanEmitInfo(l, l[id]) {
      var k := IndexOf(plan.order, id);
      assert ShapedAt(bbs, plan, l, news, k);
      assert Encodable(l[id].successors[0]) && Encodable(l[id].successors[1]);
    }
  }

  lemma {:induction false} LaidOutLowered(bbs: map<BBId, BasicBlock>, plan: Plan, l: LayoutMap, news: set<BlockId>)
    requires Shaped(bbs, plan, l, news) && LaidOut(plan.order, plan.block, l) && CanEmit(plan.order, plan.block, l)
    ensures OrderLowered(plan.order, plan.block, l)
  {
    forall k | 0 <= k < |plan.order|
      ensures if HasBranches(plan.order, l, k) then Lowers(l, l[plan.order[k]], Next(plan.order, k))
              else l[plan.order[k]].successors == [Unused, Unused]
    {
      assert ShapedAt(bbs, plan, l, news, k);
      assert CanEmitInfo(l, l[plan.order[k]]);
    }
  }

  lemma {:induction false} LaidOutFitsIff(order: seq<BBId>, block: BlockId, l: LayoutMap)
    requires LaidOut(order, block, l)
    ensures SelfConsistent(order, block, l) <==> forall id :: id in order ==> SecondHasRoom(l, l[id])
  {
    forall id | id in order
      ensures BranchFits(l, l[id], 0) && (BranchFits(l, l[id], 1) <==> SecondHasRoom(l, l[id]))
    {
      StableBlockFits(order, block, l, id);
    }
    if forall id :: id in order ==> SecondHasRoom(l, l[id]) {
      forall id, i | id in order && 0 <= i < 2 ensures BranchFits(l, l[id], i) {}
    }
  }

  /** The block builder preserves control flow: for every order of basic blocks, the block that is emitted
      implements all successors of all its basic blocks exactly if no short second branch is out of reach. */
  lemma {:induction false} BuilderPreservesControlFlow(bbs: map<BBId, BasicBlock>, plan: Plan, l: LayoutMap,
                                                       news: set<BlockId>)
    requires Shaped(bbs, plan, l, news) && LaidOut(plan.order, plan.block, l)
    ensures CanEmit(plan.order, plan.block, l) && OrderLowered(plan.order, plan.block, l)
    ensures |BlockImage(plan.order, plan.block, l)| < 0x8000_0000 ==>
      (ControlFlowPreserved(plan.order, plan.block, l) <==>
         forall id :: id in plan.order ==> SecondHasRoom(l, l[id]))
  {
    LaidOutCanEmit(bbs, plan, l, news);
    LaidOutLowered(bbs, plan, l, news);
    if |BlockImage(plan.order, plan.block, l)| < 0x8000_0000 {
      ControlFlowPreservedIff(plan.order, plan.block, l);
      LaidOutFitsIff(plan.order, plan.block, l);
    }
  }

  // ----- the layout of a whole subgraph -----

  /** The basic blocks of an order exist and have at most two successors each. */
  predicate CanInitialize(bbs: map<BBId, BasicBlock>, order: seq<BBId>)
  {
    forall j :: 0 <= j < |order| ==> order[j] in bbs && (bbs[order[j]].Code? ==> |bbs[order[j]].successors| <= 2)
  }

  /** The records of an order are as they were initialized, and no other records are for its block. */
  ghost predicate Begun(bbs: map<BBId, BasicBlock>, plan: Plan, l: LayoutMap)
  {
    && Distinct(plan.order) && CanInitialize(bbs, plan.order)
    && (forall j :: 0 <= j < |plan.order| ==>
          plan.order[j] in l && l[plan.order[j]] == InitialInfo(bbs[plan.order[j]], plan.block, Next(plan.order, j)))
    && (forall id :: id in l && l[id].block == plan.block ==> id in plan.order)
  }

  /** Every block of a subgraph demands what the builder demands. */
  ghost predicate AllWellFormed(bbs: map<BBId, BasicBlock>, order: seq<BBId>, ids: set<BBId>, news: set<BlockId>)
  {
    forall j :: 0 <= j < |order| ==> order[j] in bbs && WellFormed(bbs[order[j]], ids, news)
  }

  lemma {:induction false} BegunIsShaped(bbs: map<BBId, BasicBlock>, plan: Plan, l: LayoutMap, news: set<BlockId>)
    requires Begun(bbs, plan, l) && AllWellFormed(bbs, plan.order, l.Keys, news) && plan.block in news
    ensures Shaped(bbs, plan, l, news)
  {
    forall k | 0 <= k < |plan.order| ensures ShapedAt(bbs, plan, l, news, k) {
      assert l[plan.order[k]] == InitialInfo(bbs[plan.order[k]], plan.block, Next(plan.order, k));
    }
  }

  lemma {:induction false} InitialIsValid(bb: BasicBlock, block: BlockId, next: Option<BBId>, ids: set<BBId>,
                                          news: set<BlockId>)
    requires WellFormed(bb, ids, news)
    ensures ValidInfo(InitialInfo(bb, block, next), ids) && InitialInfo(bb, block, next).block == block
    ensures |InitialInfo(bb, block, next).successors| == 2
    ensures SizeOf(InitialInfo(bb, block, next).successors[0]) == 0
    ensures SizeOf(InitialInfo(bb, block, next).successors[1]) == 0
  {
  }

  /** The record of one basic block. */
  lemma {:induction false} BegunAt(bbs: map<BBId, BasicBlock>, plan: Plan, l: LayoutMap, news: set<BlockId>, id: BBId)
    requires Begun(bbs, plan, l) && AllWellFormed(bbs, plan.order, l.Keys, news) && id in plan.order
    ensures id in l && l[id].block == plan.block && ValidInfo(l[id], l.Keys) && |l[id].successors| == 2
    ensures SizeOf(l[id].successors[0]) == 0 && SizeOf(l[id].successors[1]) == 0
  {
    hide InitialInfo, WellFormed, ValidInfo, SizeOf;
    var k := IndexOf(plan.order, id);
    assert l[plan.order[k]] == InitialInfo(bbs[plan.order[k]], plan.block, Next(plan.order, k));
    InitialIsValid(bbs[id], plan.block, Next(plan.order, k), l.Keys, news);
  }

  lemma {:induction false} BegunIsFresh(bbs: map<BBId, BasicBlock>, plan: Plan, l: LayoutMap, news: set<BlockId>)
    requires Begun(bbs, plan, l) && AllWellFormed(bbs, plan.order, l.Keys, news)
    ensures Fresh(plan.order, l)
  {
    hide Begun, AllWellFormed, ValidInfo, SizeOf;
    forall id, i | id in plan.order && id in l && 0 <= i < |l[id].successors|
      ensures SizeOf(l[id].successors[i]) == 0
    {
      BegunAt(bbs, plan, l, news, id);
    }
  }

  lemma {:induction false} BegunIsOwn(bbs: map<BBId, BasicBlock>, plan: Plan, l: LayoutMap, id: BBId)
    requires Begun(bbs, plan, l)
    ensures Distinct(plan.order) && (id in l && l[id].block == plan.block ==> id in plan.order)
  {
    hide InitialInfo;
  }

  lemma {:induction false} BegunIsValid(bbs: map<BBId, BasicBlock>, plan: Plan, l: LayoutMap, news: set<BlockId>)
    requires Begun(bbs, plan, l) && AllWellFormed(bbs, plan.order, l.Keys, news)
    ensures Valid(plan.order, plan.block, l) && Fresh(plan.order, l)
  {
    hide Begun, AllWellFormed, ValidInfo, Fresh, Distinct;
    BegunIsFresh(bbs, plan, l, news);
    BegunIsOwn(bbs, plan, l, 0);
    forall id | id in plan.order ensures id in l && l[id].block == plan.block && ValidInfo(l[id], l.Keys) {
      BegunAt(bbs, plan, l, news, id);
    }
    forall id | id in l && l[id].block == plan.block ensures id in plan.order {
      BegunIsOwn(bbs, plan, l, id);
    }
  }

  // ----- orders that are safe -----

  /** No basic block between two positions of the order, the one in front excluded, is aligned. */
  predicate UnalignedBetween(bbs: map<BBId, BasicBlock>, order: seq<BBId>, j: nat, k: nat)
    requires forall m :: 0 <= m < |order| ==> order[m] in bbs
  {
    forall m :: 0 <= m < |order| && (j < m <= k || k < m <= j) ==> bbs[order[m]].alignment == 1
  }

  /** If neither successor of a basic block is the next one in the order, and the second one comes no later
      than the basic block itself, nothing on the way to the first one is aligned. */
  predicate SafeAt(bbs: map<BBId, BasicBlock>, order: seq<BBId>, k: nat)
    requires k < |order| && forall m :: 0 <= m < |order| ==> order[m] in bbs
  {
    var bb, next := bbs[order[k]], Next(order, k);
    bb.Code? && |bb.successors| == 2 ==>
      var first, second := bb.successors[0], bb.successors[1];
      && !LeadsToNext(first, next) && !LeadsToNext(second, next)
      && second.reference.ToBasicBlock? && second.reference.bb in order && IndexOf(order, second.reference.bb) <= k
      && first.reference.ToBasicBlock? && first.reference.bb in order ==>
        UnalignedBetween(bbs, order, IndexOf(order, first.reference.bb), k)
  }

  /** What a caller can see of the subgraph, before it is laid out, that keeps all short branches within reach. */
  predicate SafeOrder(bbs: map<BBId, BasicBlock>, order: seq<BBId>)
  {
    (forall m :: 0 <= m < |order| ==> order[m] in bbs) && forall k :: 0 <= k < |order| ==> SafeAt(bbs, order, k)
  }

  lemma {:induction false} SafeOrderLaysOutSafely(bbs: map<BBId, BasicBlock>, plan: Plan, l: LayoutMap,
                                                  news: set<BlockId>)
    requires Shaped(bbs, plan, l, news)
    ensures forall id :: id in plan.order ==> id in l && |l[id].successors| == 2
    ensures SafeOrder(bbs, plan.order) <==> SafeLayout(plan.order, l)
  {
    forall id | id in plan.order ensures id in l && |l[id].successors| == 2 {
      assert ShapedAt(bbs, plan, l, news, IndexOf(plan.order, id));
    }
    forall m | 0 <= m < |plan.order|
      ensures plan.order[m] in bbs && bbs[plan.order[m]].alignment == l[plan.order[m]].basicBlock.alignment
    {
      assert ShapedAt(bbs, plan, l, news, m);
    }
    forall k | 0 <= k < |plan.order| ensures SafeAt(bbs, plan.order, k) <==> SecondSafe(plan.order, l, k) {
      SafePosition(bbs, plan, l, news, k);
    }
  }

  lemma {:induction false} SafePosition(bbs: map<BBId, BasicBlock>, plan: Plan, l: LayoutMap, news: set<BlockId>,
                                        k: nat)
    requires Shaped(bbs, plan, l, news) && k < |plan.order|
    requires forall id :: id in plan.order ==> id in l && |l[id].successors| == 2
    requires forall m :: 0 <= m < |plan.order| ==>
      plan.order[m] in bbs && bbs[plan.order[m]].alignment == l[plan.order[m]].basicBlock.alignment
    ensures SafeAt(bbs, plan.order, k) <==> SecondSafe(plan.order, l, k)
  {
    assert ShapedAt(bbs, plan, l, news, k);
    forall j: nat | j < |plan.order|
      ensures UnalignedBetween(bbs, plan.order, j, k) <==> BetweenAligned(plan.order, l, j, k)
    {
    }
  }

  /** An order that is laid out, and whose branches all fit if it is safe. */
  ghost predicate Settled(bbs: map<BBId, BasicBlock>, plan: Plan, l: LayoutMap, news: set<BlockId>)
  {
    && Shaped(bbs, plan, l, news) && LaidOut(plan.order, plan.block, l)
    && (SafeOrder(bbs, plan.order) ==> SelfConsistent(plan.order, plan.block, l))
  }

  /** Laying an order out settles it. */
  lemma {:induction false} RelaxSettles(bbs: map<BBId, BasicBlock>, plan: Plan, l: LayoutMap, news: set<BlockId>)
    requires Shaped(bbs, plan, l, news) && Valid(plan.order, plan.block, l) && Fresh(plan.order, l)
    ensures Settled(bbs, plan, Relax(plan.order, plan.block, l), news)
  {
    var r := Relax(plan.order, plan.block, l);
    RelaxKeepsShape(plan.order, plan.block, l);
    RelaxLaysOut(plan.order, plan.block, l);
    StaysShaped(bbs, plan, l, r, news);
    if SafeOrder(bbs, plan.order) {
      SafeOrderLaysOutSafely(bbs, plan, l, news);
      SafeLayoutFits(plan.order, plan.block, l);
    }
  }

  /** What happens to another order leaves this one as it was. */
  lemma {:induction false} OthersUntouched(order: seq<BBId>, other: seq<BBId>, l: LayoutMap, r: LayoutMap)
    requires SameElsewhere(other, l, r) && forall id :: id in order ==> id !in other
    ensures SameOrder(order, l, r)
  {
  }

  lemma {:induction false} StaysSettled(bbs: map<BBId, BasicBlock>, plan: Plan, l: LayoutMap, r: LayoutMap,
                                        news: set<BlockId>)
    requires Settled(bbs, plan, l, news) && SameOrder(plan.order, l, r)
    ensures Settled(bbs, plan, r, news)
  {
    StaysShaped(bbs, plan, l, r, news);
    StaysLaidOut(plan.order, plan.block, l, r);
    if SafeOrder(bbs, plan.order) {
      StaysConsistent(plan.order, plan.block, l, r);
    }
  }

  lemma {:induction false} StaysFresh(order: seq<BBId>, block: BlockId, l: LayoutMap, r: LayoutMap)
    requires Valid(order, block, l) && Fresh(order, l) && SameOrder(order, l, r)
    ensures Valid(order, block, r) && Fresh(order, r)
  {
  }
}
