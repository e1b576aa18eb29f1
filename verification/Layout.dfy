/** Layout of an ordering of basic blocks into one block: start offsets under alignment, and the
    sizes of the branches that implement the successors.

    The functions here specify one pass of the relaxation loop and its fixpoint; the in-place loop
    is `BlockBuilder.MergeContext.GenerateBlockLayout`. */
module Layout {
  import opened Conditions
  import opened Types
  import opened BasicBlocks

  const SHORT_BRANCH_SIZE: nat := 2
  const LONG_BRANCH_SIZE: nat := 6
  const SHORT_JUMP_SIZE: nat := 2
  const LONG_JUMP_SIZE: nat := 5

  /** The three states of a successor's layout record: not there, represented by falling through
      into the next basic block, or represented by a branch of `size` bytes. */
  datatype SuccessorLayoutInfo =
    | Unused
    | Elided(successor: Successor)
    | Manifested(condition: Condition, reference: BasicBlockReference, size: nat, successor: Successor)

  datatype BasicBlockLayoutInfo = BasicBlockLayoutInfo(
    basicBlock: BasicBlock, block: BlockId, startOffset: nat, basicBlockSize: nat,
    successors: seq<SuccessorLayoutInfo>)

  type LayoutMap = map<BBId, BasicBlockLayoutInfo>

  /** Whether a successor leads to the basic block that comes next in the order. */
  predicate LeadsToNext(s: Successor, next: Option<BBId>)
  {
    s.reference.ToBasicBlock? && next == Some(s.reference.bb)
  }

  function InitialSlot(s: Successor, next: Option<BBId>, afterBranch: bool): SuccessorLayoutInfo
  {
    if LeadsToNext(s, next) then Elided(s)
    else Manifested(if afterBranch then CONDITION_TRUE else s.condition, s.reference, 0, s)
  }

  /** How the successors of a code block are to be represented, before any size is known: one that
      leads to the next basic block is elided, and a branch that follows another one is turned into
      an unconditional jump. */
  function InitialSlots(successors: seq<Successor>, next: Option<BBId>): (r: seq<SuccessorLayoutInfo>)
    requires |successors| <= 2
    ensures |r| == 2
  {
    if |successors| == 0 then [Unused, Unused]
    else
      var first := InitialSlot(successors[0], next, false);
      [first, if |successors| == 1 then Unused else InitialSlot(successors[1], next, first.Manifested?)]
  }

  /** The layout record of a basic block before relaxation. */
  function InitialInfo(bb: BasicBlock, block: BlockId, next: Option<BBId>): BasicBlockLayoutInfo
    requires bb.Code? ==> |bb.successors| <= 2
  {
    BasicBlockLayoutInfo(bb, block, 0, BasicBlockSize(bb),
                         if bb.Code? then InitialSlots(bb.successors, next) else [Unused, Unused])
  }

  /** The basic block that follows position `k`, if any. */
  function Next(order: seq<BBId>, k: nat): Option<BBId>
  {
    if k + 1 < |order| then Some(order[k + 1]) else None
  }

  function ShortSuccessorSize(c: Condition): nat
  {
    if c == CONDITION_TRUE then SHORT_JUMP_SIZE else SHORT_BRANCH_SIZE
  }

  function LongSuccessorSize(c: Condition): nat
  {
    if c == CONDITION_TRUE then LONG_JUMP_SIZE else LONG_BRANCH_SIZE
  }

  /** Rounds up to the next multiple of the alignment. */
  function AlignUp(value: nat, alignment: nat): (r: nat)
    requires alignment > 0
    ensures value <= r < value + alignment
    ensures r % alignment == 0
    ensures alignment == 1 ==> r == value
  {
    var q := (value + alignment - 1) / alignment;
    MultipleOf(q, alignment);
    q * alignment
  }

  lemma {:induction false} AtLeast(d: int, n: int)
    requires n > 0
    ensures d >= 1 ==> d * n >= n
    ensures d <= -1 ==> d * n <= -n
  {
  }

  lemma {:induction false} MultipleOf(q: nat, n: nat)
    requires n > 0
    ensures (q * n) % n == 0
  {
    var k, r := (q * n) / n, (q * n) % n;
    assert r == (q - k) * n;
    AtLeast(q - k, n);
  }

  /** The bytes a successor's representation takes. */
  function SizeOf(s: SuccessorLayoutInfo): nat { if s.Manifested? then s.size else 0 }

  function TotalSize(info: BasicBlockLayoutInfo): nat
    requires |info.successors| == 2
  {
    info.basicBlockSize + SizeOf(info.successors[0]) + SizeOf(info.successors[1])
  }

  predicate Distinct(order: seq<BBId>) { forall i, j :: 0 <= i < j < |order| ==> order[i] != order[j] }

  predicate ValidSuccessorInfo(s: SuccessorLayoutInfo, ids: set<BBId>)
  {
    s.Manifested? ==>
      && s.condition != INVALID_CONDITION
      && s.size in {0, ShortSuccessorSize(s.condition), LongSuccessorSize(s.condition)}
      && (s.reference.ToBasicBlock? ==> s.reference.bb in ids)
  }

  predicate ValidInfo(info: BasicBlockLayoutInfo, ids: set<BBId>)
  {
    && info.basicBlock.alignment > 0
    && |info.successors| == 2
    && ValidSuccessorInfo(info.successors[0], ids)
    && ValidSuccessorInfo(info.successors[1], ids)
    && (info.successors[0].Unused? ==> info.successors[1].Unused?)
  }

  /** `order` is the ordering that makes up block `block`, and every basic block that a branch can
      go to has a layout record. */
  predicate Valid(order: seq<BBId>, block: BlockId, l: LayoutMap)
  {
    && Distinct(order)
    && (forall id :: id in order ==> id in l)
    && (forall id :: id in l ==> (l[id].block == block <==> id in order))
    && (forall id :: id in order ==> ValidInfo(l[id], l.Keys))
  }

  // ----- start offsets -----

  /** The offset just past the first `k` basic blocks, before the alignment of the next one. */
  function EndOf(order: seq<BBId>, l: LayoutMap, k: nat): (r: nat)
    requires k <= |order|
    requires forall id :: id in order ==> id in l && l[id].basicBlock.alignment > 0 && |l[id].successors| == 2
    decreases k, 0
  {
    if k == 0 then 0 else StartOf(order, l, k - 1) + TotalSize(l[order[k - 1]])
  }

  function StartOf(order: seq<BBId>, l: LayoutMap, k: nat): (r: nat)
    requires k < |order|
    requires forall id :: id in order ==> id in l && l[id].basicBlock.alignment > 0 && |l[id].successors| == 2
    decreases k, 1
  {
    AlignUp(EndOf(order, l, k), l[order[k]].basicBlock.alignment)
  }

  function IndexOf(order: seq<BBId>, id: BBId): (k: nat)
    requires id in order
    ensures k < |order| && order[k] == id
  {
    if order[0] == id then 0 else 1 + IndexOf(order[1..], id)
  }

  /** All start offsets recomputed from the current sizes. */
  function Place(order: seq<BBId>, block: BlockId, l: LayoutMap): (p: LayoutMap)
    requires Valid(order, block, l)
  {
    map id | id in l ::
      if id in order then l[id].(startOffset := StartOf(order, l, IndexOf(order, id))) else l[id]
  }

  // ----- successor sizes -----

  /** The displacement a short branch at offset `start` would need. */
  function ShortDisplacement(l: LayoutMap, start: nat, s: SuccessorLayoutInfo): int
    requires s.Manifested? && s.reference.ToBasicBlock? && s.reference.bb in l
  {
    l[s.reference.bb].startOffset - (start + ShortSuccessorSize(s.condition))
  }

  predicate FitsInt8(x: int) { -128 <= x <= 127 }

  /** Whether a branch at offset `start` of block `block` can use its short encoding. */
  predicate ShortReaches(l: LayoutMap, block: BlockId, start: nat, s: SuccessorLayoutInfo)
    requires s.Manifested? && (s.reference.ToBasicBlock? ==> s.reference.bb in l)
  {
    && s.reference.ToBasicBlock?
    && l[s.reference.bb].block == block
    && FitsInt8(ShortDisplacement(l, start, s))
  }

  function RequiredSuccessorSize(l: LayoutMap, block: BlockId, start: nat, s: SuccessorLayoutInfo): nat
    requires s.Manifested? && (s.reference.ToBasicBlock? ==> s.reference.bb in l)
  {
    if ShortReaches(l, block, start, s) then ShortSuccessorSize(s.condition) else LongSuccessorSize(s.condition)
  }

  /** The size the current pass computes for the successor in slot 0. */
  function FirstRequired(l: LayoutMap, info: BasicBlockLayoutInfo): nat
    requires ValidInfo(info, l.Keys)
  {
    var s := info.successors[0];
    if s.Manifested? then RequiredSuccessorSize(l, info.block, info.startOffset + info.basicBlockSize, s) else 0
  }

  /** The size the current pass computes for the successor in slot 1: it is placed behind the size
      just computed for slot 0, not behind the size that slot 0 keeps. */
  function SecondRequired(l: LayoutMap, info: BasicBlockLayoutInfo): nat
    requires ValidInfo(info, l.Keys)
  {
    var s := info.successors[1];
    if s.Manifested? then
      RequiredSuccessorSize(l, info.block, info.startOffset + info.basicBlockSize + FirstRequired(l, info), s)
    else 0
  }

  function Max(a: nat, b: nat): nat { if a < b then b else a }

  function Grow(s: SuccessorLayoutInfo, required: nat): SuccessorLayoutInfo
  {
    if s.Manifested? then s.(size := Max(s.size, required)) else s
  }

  function ExpandInfo(l: LayoutMap, info: BasicBlockLayoutInfo): BasicBlockLayoutInfo
    requires ValidInfo(info, l.Keys)
  {
    info.(successors := [Grow(info.successors[0], FirstRequired(l, info)),
                         Grow(info.successors[1], SecondRequired(l, info))])
  }

  /** All successor sizes grown to what the placed layout `l` requires. */
  function Expand(order: seq<BBId>, block: BlockId, l: LayoutMap): (e: LayoutMap)
    requires Valid(order, block, l)
  {
    map id | id in l :: if id in order then ExpandInfo(l, l[id]) else l[id]
  }

  // ----- the fixpoint -----

  /** How many bytes the successors of the first `k` basic blocks can still grow by. */
  function Slack(order: seq<BBId>, l: LayoutMap, k: nat): nat
    requires k <= |order|
    requires forall id :: id in order ==> id in l && ValidInfo(l[id], l.Keys)
  {
    if k == 0 then 0
    else Slack(order, l, k - 1) + SuccessorSlack(l[order[k - 1]].successors[0])
                                + SuccessorSlack(l[order[k - 1]].successors[1])
  }

  function SuccessorSlack(s: SuccessorLayoutInfo): nat
  {
    if s.Manifested? && s.size <= LongSuccessorSize(s.condition) then LongSuccessorSize(s.condition) - s.size else 0
  }

  lemma {:induction false} IndexOfElement(order: seq<BBId>, k: nat)
    requires Distinct(order) && k < |order|
    ensures IndexOf(order, order[k]) == k
  {
  }

  lemma {:induction false} PlaceValid(order: seq<BBId>, block: BlockId, l: LayoutMap)
    requires Valid(order, block, l)
    ensures Valid(order, block, Place(order, block, l))
  {
    var p := Place(order, block, l);
    assert p.Keys == l.Keys;
  }

  lemma {:induction false} ExpandValid(order: seq<BBId>, block: BlockId, l: LayoutMap)
    requires Valid(order, block, l)
    ensures Valid(order, block, Expand(order, block, l))
  {
    var e := Expand(order, block, l);
    assert e.Keys == l.Keys;
  }

  lemma {:induction false} InfoSlack(l: LayoutMap, info: BasicBlockLayoutInfo)
    requires ValidInfo(info, l.Keys)
    ensures var e := ExpandInfo(l, info);
      var before := SuccessorSlack(info.successors[0]) + SuccessorSlack(info.successors[1]);
      var after := SuccessorSlack(e.successors[0]) + SuccessorSlack(e.successors[1]);
      after <= before && (e != info ==> after < before)
  {
    assert info.successors == [info.successors[0], info.successors[1]];
  }

  lemma {:induction false} SlackShrinks(order: seq<BBId>, block: BlockId, l: LayoutMap, e: LayoutMap, k: nat)
    requires Valid(order, block, l) && k <= |order| && Valid(order, block, e)
    requires e == Expand(order, block, l)
    ensures Slack(order, e, k) <= Slack(order, l, k)
    ensures (exists j :: 0 <= j < k && e[order[j]] != l[order[j]]) ==> Slack(order, e, k) < Slack(order, l, k)
  {
    if k > 0 {
      SlackShrinks(order, block, l, e, k - 1);
      InfoSlack(l, l[order[k - 1]]);
      assert e[order[k - 1]] == ExpandInfo(l, l[order[k - 1]]);
    }
  }

  lemma SlackIgnoresPlacement(order: seq<BBId>, block: BlockId, l: LayoutMap, p: LayoutMap, k: nat)
    requires Valid(order, block, l) && k <= |order| && Valid(order, block, p)
    requires p == Place(order, block, l)
    ensures Slack(order, p, k) == Slack(order, l, k)
  {
  }

  lemma {:induction false} ExpandChangesOrder(order: seq<BBId>, block: BlockId, p: LayoutMap)
    requires Valid(order, block, p)
    ensures var e := Expand(order, block, p);
      e != p ==> exists j :: 0 <= j < |order| && e[order[j]] != p[order[j]]
  {
    var e := Expand(order, block, p);
    if forall j :: 0 <= j < |order| ==> e[order[j]] == p[order[j]] {
      assert forall id :: id in p ==> e[id] == p[id];
    }
  }

  /** One pass that changed a size leaves less room to grow: the measure of the relaxation loop. */
  lemma {:induction false} PassProgress(order: seq<BBId>, block: BlockId, l: LayoutMap)
    requires Valid(order, block, l)
    ensures var p := Place(order, block, l);
      Valid(order, block, p) &&
      var e := Expand(order, block, p);
      Valid(order, block, e) &&
      (e != p ==> Slack(order, e, |order|) < Slack(order, l, |order|))
  {
    PlaceValid(order, block, l);
    var p := Place(order, block, l);
    ExpandValid(order, block, p);
    var e := Expand(order, block, p);
    SlackIgnoresPlacement(order, block, l, p, |order|);
    SlackShrinks(order, block, p, e, |order|);
    ExpandChangesOrder(order, block, p);
  }

  /** The layout the relaxation loop stops at. */
  function Relax(order: seq<BBId>, block: BlockId, l: LayoutMap): (r: LayoutMap)
    requires Valid(order, block, l)
    ensures Valid(order, block, r)
    decreases Slack(order, l, |order|)
  {
    PassProgress(order, block, l);
    var p := Place(order, block, l);
    var e := Expand(order, block, p);
    if e == p then p else Relax(order, block, e)
  }

  /** The number of passes the relaxation loop makes. */
  function Passes(order: seq<BBId>, block: BlockId, l: LayoutMap): nat
    requires Valid(order, block, l)
    decreases Slack(order, l, |order|)
  {
    PassProgress(order, block, l);
    var p := Place(order, block, l);
    var e := Expand(order, block, p);
    if e == p then 1 else 1 + Passes(order, block, e)
  }
}
