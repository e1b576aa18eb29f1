/** With alignments, the layout that relaxation stops at can hold a short branch that is out of reach. */
module Counterexample {
  import opened Types
  import opened Conditions
  import opened BasicBlocks
  import opened Layout
  import opened LayoutTheorems
  import opened Emission
  import opened ControlFlow
  import opened BuilderSpecs

  const BLOCK: BlockId := 1
  const ELSEWHERE: BlockId := 2
  const ORDER: seq<BBId> := [0, 1, 2, 3, 4]

  /** One-byte instructions. */
  function Nops(n: nat): seq<Instruction>
  {
    if n == 0 then [] else [Instruction([0x90], map[])] + Nops(n - 1)
  }

  lemma {:induction false} NopsSize(n: nat)
    ensures |InstructionBytes(Nops(n))| == n
  {
    if n > 0 {
      assert Nops(n)[1..] == Nops(n - 1);
      NopsSize(n - 1);
    }
  }

  function Bytes(n: nat): (b: seq<uint8>)
    ensures |b| == n
  {
    seq(n, _ => 0)
  }

  const FIRST := Successor(4, ToBasicBlock(PC_RELATIVE_REF, 4, 4))
  const SECOND := Successor(5, ToBasicBlock(PC_RELATIVE_REF, 4, 1))
  const AWAY := Successor(CONDITION_TRUE, ToBlock(PC_RELATIVE_REF, 4, ELSEWHERE, 0, 0))

  /** Data, a jump out of the block, code that branches forward and back, aligned data, and code. */
  function BasicBlocksUsed(): map<BBId, BasicBlock>
  {
    map[0 := Data(1, Bytes(13), map[]),
        1 := Code(1, Nops(1), [AWAY]),
        2 := Code(1, Nops(LONG), [FIRST, SECOND]),
        3 := Data(16, Bytes(116), map[]),
        4 := Code(1, Nops(1), [])]
  }

  /** The layout records with the given start offsets and branch sizes. */
  function LayoutOf(starts: seq<nat>, away: nat, first: nat, second: nat): LayoutMap
    requires |starts| == 5
  {
    var bbs := BasicBlocksUsed();
    map[0 := BasicBlockLayoutInfo(bbs[0], BLOCK, starts[0], 13, [Unused, Unused]),
        1 := BasicBlockLayoutInfo(bbs[1], BLOCK, starts[1], 1,
                                  [Manifested(CONDITION_TRUE, AWAY.reference, away, AWAY), Unused]),
        2 := BasicBlockLayoutInfo(bbs[2], BLOCK, starts[2], 115,
                                  [Manifested(4, FIRST.reference, first, FIRST),
                                   Manifested(CONDITION_TRUE, SECOND.reference, second, SECOND)]),
        3 := BasicBlockLayoutInfo(bbs[3], BLOCK, starts[3], 116, [Unused, Unused]),
        4 := BasicBlockLayoutInfo(bbs[4], BLOCK, starts[4], 1, [Unused, Unused])]
  }

  lemma {:induction false} InitializedCode(n: nat, succs: seq<Successor>, next: Option<BBId>)
    requires |succs| <= 2
    ensures InitialInfo(Code(1, Nops(n), succs), BLOCK, next)
      == BasicBlockLayoutInfo(Code(1, Nops(n), succs), BLOCK, 0, n, InitialSlots(succs, next))
  {
    NopsSize(n);
  }

  /** That is how the builder initializes these basic blocks in this order. */
  lemma {:induction false} Initialized(l: LayoutMap, bbs: map<BBId, BasicBlock>, k: nat)
    requires l == LayoutOf([0, 0, 0, 0, 0], 0, 0, 0) && bbs == BasicBlocksUsed() && k < 5
    ensures l[k] == InitialInfo(bbs[k], BLOCK, Next(ORDER, k))
  {
    if k == 1 {
      InitializedCode(1, [AWAY], Next(ORDER, k));
    } else if k == 2 {
      InitializedCode(LONG, [FIRST, SECOND], Next(ORDER, k));
    } else if k == 4 {
      InitializedCode(1, [], Next(ORDER, k));
    }
  }

  const LONG: nat := 115

  lemma {:induction false} LayoutIsValid(starts: seq<nat>, away: nat, first: nat, second: nat)
    requires |starts| == 5 && away in {0, 5} && first in {0, 6} && second in {0, 2}
    ensures Valid(ORDER, BLOCK, LayoutOf(starts, away, first, second))
  {
    hide Nops, Bytes, InstructionBytes;
  }

  lemma {:induction false} Starts(l: LayoutMap, starts: seq<nat>, away: nat, first: nat, second: nat)
    requires |starts| == 5 && l == LayoutOf(starts, away, first, second) && Valid(ORDER, BLOCK, l)
    ensures StartOf(ORDER, l, 0) == 0 && StartOf(ORDER, l, 1) == 13 && StartOf(ORDER, l, 2) == 14 + away
    ensures StartOf(ORDER, l, 3) == AlignUp(129 + away + first + second, 16)
    ensures StartOf(ORDER, l, 4) == AlignUp(129 + away + first + second, 16) + 116
  {
    hide Nops, Bytes, AlignUp;
    assert EndOf(ORDER, l, 0) == 0;
    assert EndOf(ORDER, l, 1) == 13;
    assert EndOf(ORDER, l, 2) == 14 + away;
    assert EndOf(ORDER, l, 3) == 129 + away + first + second;
    assert EndOf(ORDER, l, 4) == StartOf(ORDER, l, 3) + 116;
  }

  lemma {:induction false} PlacesOne(l: LayoutMap, k: nat)
    requires Valid(ORDER, BLOCK, l) && k < 5 && k in l
    ensures Place(ORDER, BLOCK, l)[k] == l[k].(startOffset := StartOf(ORDER, l, k))
  {
    IndexOfElement(ORDER, k);
    assert ORDER[k] == k;
  }

  lemma {:induction false} Places(l: LayoutMap, starts: seq<nat>, away: nat, first: nat, second: nat,
                                  placed: seq<nat>, p: LayoutMap)
    requires |starts| == 5 && l == LayoutOf(starts, away, first, second) && Valid(ORDER, BLOCK, l)
    requires var x := AlignUp(129 + away + first + second, 16); placed == [0, 13, 14 + away, x, x + 116]
    requires p == LayoutOf(placed, away, first, second)
    ensures Place(ORDER, BLOCK, l) == p
  {
    hide Nops, Bytes, StartOf, AlignUp;
    Starts(l, starts, away, first, second);
    PlacesOne(l, 0);
    PlacesOne(l, 1);
    PlacesOne(l, 2);
    PlacesOne(l, 3);
    PlacesOne(l, 4);
  }

  /** The first pass sizes the branches: the forward one is out of short reach. */
  lemma {:induction false} FirstPass(p: LayoutMap)
    requires p == LayoutOf([0, 13, 14, 144, 260], 0, 0, 0) && Valid(ORDER, BLOCK, p)
    ensures Expand(ORDER, BLOCK, p) == LayoutOf([0, 13, 14, 144, 260], 5, 6, 2)
  {
    hide Nops, Bytes;
    assert FirstRequired(p, p[2]) == 6 && SecondRequired(p, p[2]) == 2 && FirstRequired(p, p[1]) == 5;
  }

  /** In the second pass the alignment absorbs the growth, and the forward branch would do with two bytes:
      the backward one is sized as if it had shrunk. */
  lemma {:induction false} SecondPass(p: LayoutMap)
    requires p == LayoutOf([0, 13, 19, 144, 260], 5, 6, 2) && Valid(ORDER, BLOCK, p)
    ensures Expand(ORDER, BLOCK, p) == p
    ensures !BranchFits(p, p[2], 1) && !SecondHasRoom(p, p[2])
  {
    hide Nops, Bytes;
    assert FirstRequired(p, p[2]) == 2 && SecondRequired(p, p[2]) == 2 && FirstRequired(p, p[1]) == 5;
    assert BranchStart(p[2], 1) == 140;
  }

  lemma {:induction false} Aligned()
    ensures AlignUp(129, 16) == 144 && AlignUp(142, 16) == 144
  {
  }

  lemma {:induction false} InitiallyFresh(l: LayoutMap)
    requires l == LayoutOf([0, 0, 0, 0, 0], 0, 0, 0)
    ensures Valid(ORDER, BLOCK, l) && Fresh(ORDER, l)
  {
    LayoutIsValid([0, 0, 0, 0, 0], 0, 0, 0);
  }

  function Initial(): LayoutMap { LayoutOf([0, 0, 0, 0, 0], 0, 0, 0) }

  function FirstPlaced(): LayoutMap { LayoutOf([0, 13, 14, 144, 260], 0, 0, 0) }

  function FirstExpanded(): LayoutMap { LayoutOf([0, 13, 14, 144, 260], 5, 6, 2) }

  function Stable(): LayoutMap { LayoutOf([0, 13, 19, 144, 260], 5, 6, 2) }

  /** Relaxing this order ends with a two-byte jump over a distance of 129 bytes. */
  lemma {:induction false} RelaxationCanFail()
    ensures Valid(ORDER, BLOCK, Initial()) && Fresh(ORDER, Initial())
    ensures !SelfConsistent(ORDER, BLOCK, Relax(ORDER, BLOCK, Initial()))
  {
    InitiallyFresh(Initial());
    FourLayouts(Initial(), FirstPlaced(), FirstExpanded(), Stable());
  }

  lemma {:induction false} SizesDiffer(p: LayoutMap, e: LayoutMap)
    requires p == FirstPlaced() && e == FirstExpanded()
    ensures p != e
  {
    hide Nops, Bytes;
    assert e[1].successors[0].size != p[1].successors[0].size;
  }

  lemma {:induction false} NotConsistent(q: LayoutMap)
    requires q == Stable() && Valid(ORDER, BLOCK, q) && !BranchFits(q, q[2], 1)
    ensures !SelfConsistent(ORDER, BLOCK, q)
  {
    hide Nops, Bytes, LayoutOf, BranchFits;
    assert ORDER[2] == 2 && 2 in ORDER;
  }

  lemma {:induction false} FourLayouts(l: LayoutMap, p: LayoutMap, e: LayoutMap, q: LayoutMap)
    requires l == Initial() && p == FirstPlaced() && e == FirstExpanded() && q == Stable() && Valid(ORDER, BLOCK, l)
    ensures Relax(ORDER, BLOCK, l) == q && !SelfConsistent(ORDER, BLOCK, q)
  {
    hide Nops, Bytes, LayoutOf, Place, Expand, Relax, Valid, SelfConsistent, AlignUp;
    Aligned();
    LayoutIsValid([0, 13, 14, 144, 260], 0, 0, 0);
    LayoutIsValid([0, 13, 14, 144, 260], 5, 6, 2);
    LayoutIsValid([0, 13, 19, 144, 260], 5, 6, 2);
    Places(l, [0, 0, 0, 0, 0], 0, 0, 0, [0, 13, 14, 144, 260], p);
    Places(e, [0, 13, 14, 144, 260], 5, 6, 2, [0, 13, 19, 144, 260], q);
    FirstPass(p);
    SecondPass(q);
    SizesDiffer(p, e);
    TwoPasses(l, p, e, q);
    NotConsistent(q);
  }

  lemma {:induction false} TwoPasses(l: LayoutMap, p: LayoutMap, e: LayoutMap, q: LayoutMap)
    requires Valid(ORDER, BLOCK, l) && Valid(ORDER, BLOCK, p) && Valid(ORDER, BLOCK, e) && Valid(ORDER, BLOCK, q)
    requires Place(ORDER, BLOCK, l) == p && Expand(ORDER, BLOCK, p) == e && e != p
    requires Place(ORDER, BLOCK, e) == q && Expand(ORDER, BLOCK, q) == q
    ensures Relax(ORDER, BLOCK, l) == q
  {
    assert Relax(ORDER, BLOCK, l) == Relax(ORDER, BLOCK, e);
  }

  lemma {:induction false} InitiallyBegun(bbs: map<BBId, BasicBlock>, l: LayoutMap)
    requires l == Initial() && bbs == BasicBlocksUsed()
    ensures Begun(bbs, Plan(BLOCK, ORDER), l) && AllWellFormed(bbs, ORDER, l.Keys, {BLOCK})
  {
    hide Nops, Bytes, InitialInfo;
    forall j | 0 <= j < |ORDER|
      ensures ORDER[j] in l && l[ORDER[j]] == InitialInfo(bbs[ORDER[j]], BLOCK, Next(ORDER, j))
    {
      assert ORDER[j] == j;
      Initialized(l, bbs, j);
    }
    forall j | 0 <= j < |ORDER| ensures WellFormed(bbs[ORDER[j]], l.Keys, {BLOCK}) {
      UsedWellFormed(bbs, l.Keys, ORDER[j]);
    }
  }

  lemma {:induction false} NopsPlain(n: nat, i: nat)
    requires i < |Nops(n)|
    ensures Nops(n)[i].references == map[]
  {
    if i > 0 { NopsPlain(n - 1, i - 1); }
  }

  lemma {:induction false} UsedWellFormed(bbs: map<BBId, BasicBlock>, ids: set<BBId>, id: BBId)
    requires bbs == BasicBlocksUsed() && id in bbs && ids == {0, 1, 2, 3, 4}
    ensures WellFormed(bbs[id], ids, {BLOCK})
  {
    hide Nops, Bytes;
    forall n: nat, i: nat | i < |Nops(n)| ensures Nops(n)[i].references == map[] { NopsPlain(n, i); }
  }

  /** The data in front of the target of the first branch is aligned, and the second one leads back. */
  lemma {:induction false} NotSafe(bbs: map<BBId, BasicBlock>)
    requires bbs == BasicBlocksUsed()
    ensures !SafeOrder(bbs, ORDER)
  {
    hide Nops, Bytes;
    IndexOfElement(ORDER, 4);
    IndexOfElement(ORDER, 1);
    assert ORDER[4] == 4 && ORDER[1] == 1 && ORDER[2] == 2 && ORDER[3] == 3;
    assert bbs[ORDER[3]].alignment == 16;
    assert !UnalignedBetween(bbs, ORDER, 4, 2);
    assert !SafeAt(bbs, ORDER, 2);
  }

  /** The builder initializes, lays out and emits this order, which is not safe, and what it emits does not
      implement its successors. */
  lemma {:induction false} BuilderCanGoWrong(bbs: map<BBId, BasicBlock>, l: LayoutMap, r: LayoutMap)
    requires bbs == BasicBlocksUsed() && l == Initial()
    requires Valid(ORDER, BLOCK, l) ==> r == Relax(ORDER, BLOCK, l)
    ensures Begun(bbs, Plan(BLOCK, ORDER), l) && AllWellFormed(bbs, ORDER, l.Keys, {BLOCK}) && !SafeOrder(bbs, ORDER)
    ensures Valid(ORDER, BLOCK, l) && CanEmit(ORDER, BLOCK, r) && OrderLowered(ORDER, BLOCK, r)
    ensures !ControlFlowPreserved(ORDER, BLOCK, r)
  {
    hide Begun, AllWellFormed, SafeOrder, Shaped, CanEmit, OrderLowered, ControlFlowPreserved, BlockImage, EndOf,
      SelfConsistent, BasicBlocksUsed, LayoutOf, Relax;
    InitiallyBegun(bbs, l);
    NotSafe(bbs);
    RelaxationCanFail();
    BegunIsShaped(bbs, Plan(BLOCK, ORDER), l, {BLOCK});
    RelaxKeepsShape(ORDER, BLOCK, l);
    RelaxLaysOut(ORDER, BLOCK, l);
    StaysShaped(bbs, Plan(BLOCK, ORDER), l, r, {BLOCK});
    BuilderPreservesControlFlow(bbs, Plan(BLOCK, ORDER), r, {BLOCK});
    LaidOutFitsIff(ORDER, BLOCK, r);
    ImageLength(ORDER, BLOCK, r);
    ShortBlock(r);
  }

  lemma {:induction false} ShortBlock(r: LayoutMap)
    requires Valid(ORDER, BLOCK, Initial()) && r == Relax(ORDER, BLOCK, Initial())
    ensures Valid(ORDER, BLOCK, r) && EndOf(ORDER, r, |ORDER|) < 0x8000_0000
  {
    FourLayouts(Initial(), FirstPlaced(), FirstExpanded(), Stable());
    Aligned();
    LayoutIsValid([0, 13, 19, 144, 260], 5, 6, 2);
    Starts(Stable(), [0, 13, 19, 144, 260], 5, 6, 2);
  }
}
