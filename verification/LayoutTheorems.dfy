/** What the relaxation of branch sizes guarantees. */
module LayoutTheorems {
  import opened Types
  import opened BasicBlocks
  import opened Layout

  // ----- the number of passes -----

  /** Every branch still has size zero, as layout initialization leaves it. */
  predicate Fresh(order: seq<BBId>, l: LayoutMap)
  {
    forall id, i :: id in order && id in l && 0 <= i < |l[id].successors| ==> SizeOf(l[id].successors[i]) == 0
  }

  /** Every branch has one of its two encodable sizes. */
  predicate Grown(order: seq<BBId>, l: LayoutMap)
  {
    forall id, i :: id in order && id in l && 0 <= i < |l[id].successors| && l[id].successors[i].Manifested? ==>
      l[id].successors[i].size > 0
  }

  function Pending(s: SuccessorLayoutInfo): nat
  {
    if s.Manifested? && s.size < LongSuccessorSize(s.condition) then 1 else 0
  }

  /** How many branches of the first `k` basic blocks are not in their long form. */
  function PendingBranches(order: seq<BBId>, l: LayoutMap, k: nat): nat
    requires k <= |order|
    requires forall id :: id in order ==> id in l && |l[id].successors| == 2
  {
    if k == 0 then 0
    else PendingBranches(order, l, k - 1) + Pending(l[order[k - 1]].successors[0])
                                          + Pending(l[order[k - 1]].successors[1])
  }

  lemma {:induction false} InfoPending(l: LayoutMap, info: BasicBlockLayoutInfo)
    requires ValidInfo(info, l.Keys)
    ensures var e := ExpandInfo(l, info);
      var before := Pending(info.successors[0]) + Pending(info.successors[1]);
      var after := Pending(e.successors[0]) + Pending(e.successors[1]);
      && after <= before
      && ((forall i :: 0 <= i < 2 && info.successors[i].Manifested? ==> info.successors[i].size > 0) && e != info ==>
            after < before)
  {
    assert info.successors == [info.successors[0], info.successors[1]];
  }

  lemma {:induction false} PendingShrinks(order: seq<BBId>, block: BlockId, p: LayoutMap, e: LayoutMap, k: nat)
    requires Valid(order, block, p) && Valid(order, block, e) && k <= |order|
    requires e == Expand(order, block, p)
    ensures PendingBranches(order, e, k) <= PendingBranches(order, p, k)
    ensures Grown(order, p) && (exists j :: 0 <= j < k && e[order[j]] != p[order[j]]) ==>
      PendingBranches(order, e, k) < PendingBranches(order, p, k)
  {
    if k > 0 {
      PendingShrinks(order, block, p, e, k - 1);
      InfoPending(p, p[order[k - 1]]);
      assert e[order[k - 1]] == ExpandInfo(p, p[order[k - 1]]);
    }
  }

  lemma PendingIgnoresPlacement(order: seq<BBId>, block: BlockId, l: LayoutMap, k: nat)
    requires Valid(order, block, l) && k <= |order|
    ensures PendingBranches(order, Place(order, block, l), k) == PendingBranches(order, l, k)
  {
  }

  lemma {:induction false} ExpandGrows(order: seq<BBId>, block: BlockId, p: LayoutMap)
    requires Valid(order, block, p)
    ensures Grown(order, Expand(order, block, p))
  {
    var e := Expand(order, block, p);
    forall id, i | id in order && 0 <= i < |e[id].successors| && e[id].successors[i].Manifested?
      ensures e[id].successors[i].size > 0
    {
      assert e[id] == ExpandInfo(p, p[id]);
    }
  }

  lemma {:induction false} PassesWhenGrown(order: seq<BBId>, block: BlockId, l: LayoutMap)
    requires Valid(order, block, l) && Grown(order, l)
    ensures Passes(order, block, l) <= PendingBranches(order, l, |order|) + 1
    decreases Slack(order, l, |order|)
  {
    PassProgress(order, block, l);
    var p := Place(order, block, l);
    var e := Expand(order, block, p);
    if e != p {
      assert Grown(order, p);
      ExpandGrows(order, block, p);
      ExpandChangesOrder(order, block, p);
      PendingShrinks(order, block, p, e, |order|);
      PendingIgnoresPlacement(order, block, l, |order|);
      PassesWhenGrown(order, block, e);
    }
  }

  lemma {:induction false} NothingPending(order: seq<BBId>, block: BlockId, p: LayoutMap, k: nat)
    requires Valid(order, block, p) && k <= |order|
    requires Fresh(order, p) && PendingBranches(order, p, k) == 0
    ensures forall j :: 0 <= j < k ==> ExpandInfo(p, p[order[j]]) == p[order[j]]
  {
    if k > 0 {
      NothingPending(order, block, p, k - 1);
      var info := p[order[k - 1]];
      assert SizeOf(info.successors[0]) == 0 && SizeOf(info.successors[1]) == 0;
      assert info.successors == [info.successors[0], info.successors[1]];
    }
  }

  /** The `while (true)` of the relaxation loop ends: from a freshly initialized layout with `n`
      branches it makes one pass if there are none, and at most `n + 2` passes otherwise, whatever
      the order and the alignments. */
  lemma {:induction false} RelaxationPasses(order: seq<BBId>, block: BlockId, l: LayoutMap)
    requires Valid(order, block, l) && Fresh(order, l)
    ensures var n := PendingBranches(order, l, |order|);
      if n == 0 then Passes(order, block, l) == 1 else Passes(order, block, l) <= n + 2
  {
    PassProgress(order, block, l);
    var p := Place(order, block, l);
    var e := Expand(order, block, p);
    PendingIgnoresPlacement(order, block, l, |order|);
    assert Fresh(order, p);
    if PendingBranches(order, l, |order|) == 0 {
      NothingPending(order, block, p, |order|);
      ExpandChangesOrder(order, block, p);
      assert e == p;
    } else if e != p {
      ExpandGrows(order, block, p);
      PendingShrinks(order, block, p, e, |order|);
      PassesWhenGrown(order, block, e);
    }
  }

  // ----- stability -----

  /** The start offsets agree with the sizes. */
  predicate Placed(order: seq<BBId>, l: LayoutMap)
    requires forall id :: id in order ==> id in l && l[id].basicBlock.alignment > 0 && |l[id].successors| == 2
  {
    forall k :: 0 <= k < |order| ==> l[order[k]].startOffset == StartOf(order, l, k)
  }

  lemma {:induction false} StartIgnoresPlacement(order: seq<BBId>, block: BlockId, l: LayoutMap, k: nat)
    requires Valid(order, block, l) && k < |order|
    requires Valid(order, block, Place(order, block, l))
    ensures StartOf(order, Place(order, block, l), k) == StartOf(order, l, k)
  {
    hide Valid;
    if k > 0 {
      StartIgnoresPlacement(order, block, l, k - 1);
    }
  }

  lemma {:induction false} PlaceIsPlaced(order: seq<BBId>, block: BlockId, l: LayoutMap)
    requires Valid(order, block, l)
    ensures Valid(order, block, Place(order, block, l))
    ensures Placed(order, Place(order, block, l))
  {
    PlaceValid(order, block, l);
    forall k | 0 <= k < |order|
      ensures Place(order, block, l)[order[k]].startOffset == StartOf(order, Place(order, block, l), k)
    {
      IndexOfElement(order, k);
      StartIgnoresPlacement(order, block, l, k);
    }
  }

  /** The loop stops at a layout whose offsets agree with its sizes and that another pass leaves alone. */
  lemma {:induction false} RelaxIsStable(order: seq<BBId>, block: BlockId, l: LayoutMap)
    requires Valid(order, block, l)
    ensures var r := Relax(order, block, l);
      && Placed(order, r)
      && Expand(order, block, r) == r
    decreases Slack(order, l, |order|)
  {
    PassProgress(order, block, l);
    PlaceIsPlaced(order, block, l);
    var p := Place(order, block, l);
    var e := Expand(order, block, p);
    if e != p {
      RelaxIsStable(order, block, e);
    }
  }

  // ----- self-consistent layouts -----

  /** Where the branch in slot `i` really starts. */
  function BranchStart(info: BasicBlockLayoutInfo, i: nat): nat
    requires |info.successors| == 2 && i < 2
  {
    info.startOffset + info.basicBlockSize + if i == 0 then 0 else SizeOf(info.successors[0])
  }

  /** A branch has an encodable size, and is short only if its target is really within reach. */
  predicate BranchFits(l: LayoutMap, info: BasicBlockLayoutInfo, i: nat)
    requires ValidInfo(info, l.Keys) && i < 2
  {
    var s := info.successors[i];
    s.Manifested? ==>
      && s.size in {ShortSuccessorSize(s.condition), LongSuccessorSize(s.condition)}
      && (s.size == ShortSuccessorSize(s.condition) ==> ShortReaches(l, info.block, BranchStart(info, i), s))
  }

  /** A layout that could be emitted: offsets agree with sizes and every branch fits. This is what a
      choice of encodings has to satisfy, stated without reference to how it was found. */
  predicate SelfConsistent(order: seq<BBId>, block: BlockId, l: LayoutMap)
  {
    && Valid(order, block, l)
    && Placed(order, l)
    && forall id, i :: id in order && 0 <= i < 2 ==> BranchFits(l, l[id], i)
  }

  lemma {:induction false} StableSlots(order: seq<BBId>, block: BlockId, r: LayoutMap, id: BBId)
    requires Valid(order, block, r) && Expand(order, block, r) == r && id in order
    ensures var info := r[id];
      && (info.successors[0].Manifested? ==> FirstRequired(r, info) <= info.successors[0].size)
      && (info.successors[1].Manifested? ==> SecondRequired(r, info) <= info.successors[1].size)
  {
    assert r[id] == ExpandInfo(r, r[id]);
  }

  /** The displacement that the last pass computed for a short branch in slot 1 leaves room for the
      bytes by which slot 0 is kept larger than that pass required. */
  predicate SecondHasRoom(r: LayoutMap, info: BasicBlockLayoutInfo)
    requires ValidInfo(info, r.Keys)
  {
    var s0, s1 := info.successors[0], info.successors[1];
    s0.Manifested? && s1.Manifested? && s1.size == ShortSuccessorSize(s1.condition) && s1.reference.ToBasicBlock? ==>
      ShortDisplacement(r, info.startOffset + info.basicBlockSize + FirstRequired(r, info), s1)
        >= -128 + (SizeOf(s0) - FirstRequired(r, info))
  }

  /** Every alignment: when relaxation stops, the branch in slot 0 always fits; the one in slot 1
      fits exactly when it has room for what slot 0 was kept larger by. */
  lemma {:induction false} StableBlockFits(order: seq<BBId>, block: BlockId, r: LayoutMap, id: BBId)
    requires Valid(order, block, r) && Expand(order, block, r) == r && id in order
    ensures BranchFits(r, r[id], 0)
    ensures BranchFits(r, r[id], 1) <==> SecondHasRoom(r, r[id])
  {
    StableSlots(order, block, r, id);
  }

  /** For arbitrary alignments the layout that relaxation stops at can be emitted if and only if
      every short second branch has room for what its first branch was kept larger by. */
  lemma {:induction false} RelaxedFitsIff(order: seq<BBId>, block: BlockId, l: LayoutMap)
    requires Valid(order, block, l)
    ensures var r := Relax(order, block, l);
      SelfConsistent(order, block, r) <==> forall id :: id in order ==> SecondHasRoom(r, r[id])
  {
    RelaxIsStable(order, block, l);
    var r := Relax(order, block, l);
    forall id | id in order
      ensures BranchFits(r, r[id], 0)
      ensures BranchFits(r, r[id], 1) <==> SecondHasRoom(r, r[id])
    {
      StableBlockFits(order, block, r, id);
    }
  }

  // ----- comparing layouts -----

  predicate SameSlot(s: SuccessorLayoutInfo, t: SuccessorLayoutInfo)
  {
    if s.Manifested? && t.Manifested? then s.condition == t.condition && s.reference == t.reference
    else s == t
  }

  /** The layouts differ in offsets and branch sizes only. */
  predicate SameShape(order: seq<BBId>, a: LayoutMap, b: LayoutMap)
  {
    && a.Keys == b.Keys
    && (forall id :: id in a ==> a[id].block == b[id].block)
    && (forall id :: id in order && id in a ==>
          && a[id].basicBlock == b[id].basicBlock
          && a[id].basicBlockSize == b[id].basicBlockSize
          && |a[id].successors| == |b[id].successors|
          && forall i :: 0 <= i < |a[id].successors| ==> SameSlot(a[id].successors[i], b[id].successors[i]))
  }

  /** `a` gives no branch more bytes than `b` does. */
  predicate Below(order: seq<BBId>, a: LayoutMap, b: LayoutMap)
  {
    && SameShape(order, a, b)
    && forall id, i :: id in order && id in a && 0 <= i < |a[id].successors| ==>
         SizeOf(a[id].successors[i]) <= SizeOf(b[id].successors[i])
  }

  predicate ByteAligned(order: seq<BBId>, l: LayoutMap)
  {
    forall id :: id in order && id in l ==> l[id].basicBlock.alignment == 1
  }

  /** The basic blocks behind position `j`, up to position `k`, have no alignment. */
  predicate SpanAligned(order: seq<BBId>, l: LayoutMap, j: nat, k: nat)
    requires forall id :: id in order ==> id in l
  {
    forall m :: j < m <= k && m < |order| ==> l[order[m]].basicBlock.alignment == 1
  }

  /** Those between two positions, whichever comes first. */
  predicate BetweenAligned(order: seq<BBId>, l: LayoutMap, j: nat, k: nat)
    requires forall id :: id in order ==> id in l
  {
    if j <= k then SpanAligned(order, l, j, k) else SpanAligned(order, l, k, j)
  }

  lemma {:induction false} DistanceGrows(order: seq<BBId>, block: BlockId, a: LayoutMap, b: LayoutMap, j: nat, k: nat)
    requires Valid(order, block, a) && Valid(order, block, b)
    requires Below(order, a, b) && j <= k < |order| && SpanAligned(order, a, j, k)
    ensures StartOf(order, a, k) - StartOf(order, a, j) <= StartOf(order, b, k) - StartOf(order, b, j)
    ensures StartOf(order, a, j) <= StartOf(order, a, k)
  {
    if j < k {
      DistanceGrows(order, block, a, b, j, k - 1);
      var id := order[k - 1];
      assert a[order[k]].basicBlock.alignment == 1;
      assert SizeOf(a[id].successors[0]) <= SizeOf(b[id].successors[0]);
      assert SizeOf(a[id].successors[1]) <= SizeOf(b[id].successors[1]);
    }
  }

  /** What `DistanceGrows` says about the start of `order[k]` and a target `order[j]` in front of it. */
  lemma {:induction false} DistanceBack(order: seq<BBId>, block: BlockId, a: LayoutMap, b: LayoutMap, k: nat, j: nat)
    requires Valid(order, block, a) && Valid(order, block, b) && Below(order, a, b)
    requires Placed(order, a) && Placed(order, b) && j <= k < |order| && SpanAligned(order, a, j, k)
    ensures 0 <= a[order[k]].startOffset - a[order[j]].startOffset <= b[order[k]].startOffset - b[order[j]].startOffset
  {
    hide StartOf, Below;
    DistanceGrows(order, block, a, b, j, k);
  }

  lemma {:induction false} UnalignedFollows(order: seq<BBId>, block: BlockId, l: LayoutMap, k: nat)
    requires Valid(order, block, l) && k + 1 < |order| && l[order[k + 1]].basicBlock.alignment == 1
    ensures StartOf(order, l, k + 1) == StartOf(order, l, k) + TotalSize(l[order[k]])
  {
  }

  lemma {:induction false} StartsAhead(order: seq<BBId>, block: BlockId, a: LayoutMap, b: LayoutMap, k: nat, j: nat)
    requires Valid(order, block, a) && Valid(order, block, b) && Below(order, a, b)
    requires k < j < |order| && SpanAligned(order, a, k, j)
    ensures 0 <= StartOf(order, a, j) - StartOf(order, a, k) - TotalSize(a[order[k]])
              <= StartOf(order, b, j) - StartOf(order, b, k) - TotalSize(b[order[k]])
  {
    assert a[order[k + 1]].basicBlock.alignment == b[order[k + 1]].basicBlock.alignment == 1;
    hide StartOf, TotalSize, Below;
    DistanceGrows(order, block, a, b, k + 1, j);
    UnalignedFollows(order, block, a, k);
    UnalignedFollows(order, block, b, k);
  }

  /** And a target behind it. */
  lemma {:induction false} DistanceAhead(order: seq<BBId>, block: BlockId, a: LayoutMap, b: LayoutMap, k: nat, j: nat)
    requires Valid(order, block, a) && Valid(order, block, b) && Below(order, a, b)
    requires Placed(order, a) && Placed(order, b) && k < j < |order| && SpanAligned(order, a, k, j)
    ensures 0 <= a[order[j]].startOffset - a[order[k]].startOffset - TotalSize(a[order[k]])
              <= b[order[j]].startOffset - b[order[k]].startOffset - TotalSize(b[order[k]])
  {
    hide StartOf, TotalSize, Below;
    StartsAhead(order, block, a, b, k, j);
  }

  /** If the first branch of `order[k]` leads to a basic block of the order, none on the way there is aligned. */
  predicate FirstSpanAligned(order: seq<BBId>, l: LayoutMap, k: nat)
    requires (forall id :: id in order ==> id in l) && k < |order| && |l[order[k]].successors| == 2
  {
    var s := l[order[k]].successors[0];
    s.Manifested? && s.reference.ToBasicBlock? && s.reference.bb in order ==>
      BetweenAligned(order, l, IndexOf(order, s.reference.bb), k)
  }

  /** The size required for the first branch does not shrink when branches grow, unless an alignment on the
      way to its target takes the growth up. */
  lemma {:induction false} FirstRequiredMonotone(order: seq<BBId>, block: BlockId, a: LayoutMap, b: LayoutMap, k: nat)
    requires Valid(order, block, a) && Valid(order, block, b) && Below(order, a, b)
    requires Placed(order, a) && Placed(order, b)
    requires k < |order| && FirstSpanAligned(order, a, k)
    ensures FirstRequired(a, a[order[k]]) <= FirstRequired(b, b[order[k]])
  {
    var s := a[order[k]].successors[0];
    assert SameSlot(s, b[order[k]].successors[0]);
    assert SizeOf(s) <= SizeOf(b[order[k]].successors[0]);
    assert SizeOf(a[order[k]].successors[1]) <= SizeOf(b[order[k]].successors[1]);
    if s.Manifested? && s.reference.ToBasicBlock? && a[s.reference.bb].block == block {
      var j := IndexOf(order, s.reference.bb);
      if j <= k {
        DistanceBack(order, block, a, b, k, j);
      } else {
        DistanceAhead(order, block, a, b, k, j);
      }
    }
  }

  lemma {:induction false} SecondRequiredBelow(order: seq<BBId>, block: BlockId, a: LayoutMap, b: LayoutMap, k: nat)
    requires Valid(order, block, a) && Below(order, a, b) && ByteAligned(order, a)
    requires Placed(order, a) && SelfConsistent(order, block, b)
    requires k < |order|
    requires SizeOf(a[order[k]].successors[0]) <= FirstRequired(a, a[order[k]]) <= SizeOf(b[order[k]].successors[0])
    ensures SecondRequired(a, a[order[k]]) <= SizeOf(b[order[k]].successors[1])
  {
    var s, t := a[order[k]].successors[1], b[order[k]].successors[1];
    assert SameSlot(s, t);
    assert SizeOf(s) <= SizeOf(t);
    assert BranchFits(b, b[order[k]], 1);
    if s.Manifested? && t.size == ShortSuccessorSize(t.condition) {
      var j := IndexOf(order, s.reference.bb);
      if j <= k {
        DistanceBack(order, block, a, b, k, j);
      } else {
        DistanceAhead(order, block, a, b, k, j);
      }
    }
  }

  // ----- relaxation changes offsets and sizes of its own order only -----

  /** The layouts have the same records outside the order, and agree in which block everything is. */
  ghost predicate SameElsewhere(order: seq<BBId>, l: LayoutMap, r: LayoutMap)
  {
    && r.Keys == l.Keys
    && (forall id :: id in l && id !in order ==> r[id] == l[id])
    && (forall id :: id in l ==> r[id].block == l[id].block)
  }

  lemma {:induction false} PassKeepsShape(order: seq<BBId>, block: BlockId, l: LayoutMap)
    requires Valid(order, block, l) && Valid(order, block, Place(order, block, l))
    ensures var p := Place(order, block, l);
      var e := Expand(order, block, p);
      && SameShape(order, l, p) && SameElsewhere(order, l, p)
      && SameShape(order, l, e) && SameElsewhere(order, l, e)
  {
    var p := Place(order, block, l);
    forall id, i | id in order && 0 <= i < 2
      ensures SameSlot(l[id].successors[i], Expand(order, block, p)[id].successors[i])
    {
      assert Expand(order, block, p)[id] == ExpandInfo(p, p[id]);
    }
  }

  lemma {:induction false} ShapesCompose(order: seq<BBId>, a: LayoutMap, b: LayoutMap, c: LayoutMap)
    requires SameShape(order, a, b) && SameElsewhere(order, a, b)
    requires SameShape(order, b, c) && SameElsewhere(order, b, c)
    ensures SameShape(order, a, c) && SameElsewhere(order, a, c)
  {
    forall id, i | id in order && id in a && 0 <= i < |a[id].successors|
      ensures SameSlot(a[id].successors[i], c[id].successors[i])
    {
      assert SameSlot(a[id].successors[i], b[id].successors[i]) && SameSlot(b[id].successors[i], c[id].successors[i]);
    }
  }

  /** Relaxation decides nothing but offsets and sizes, and only those of its own order. */
  lemma {:induction false} RelaxKeepsShape(order: seq<BBId>, block: BlockId, l: LayoutMap)
    requires Valid(order, block, l)
    ensures SameShape(order, l, Relax(order, block, l)) && SameElsewhere(order, l, Relax(order, block, l))
    decreases Slack(order, l, |order|)
  {
    PassProgress(order, block, l);
    PassKeepsShape(order, block, l);
    var p := Place(order, block, l);
    var e := Expand(order, block, p);
    if e != p {
      RelaxKeepsShape(order, block, e);
      ShapesCompose(order, l, e, Relax(order, block, e));
    }
  }

  // ----- layouts that can be emitted -----

  /** The first branch of `order[k]` is not kept larger than the next pass requires. */
  predicate FirstTightAt(order: seq<BBId>, block: BlockId, l: LayoutMap, k: nat)
    requires Valid(order, block, l) && k < |order|
  {
    var p := Place(order, block, l);
    PlaceValid(order, block, l);
    SizeOf(p[order[k]].successors[0]) <= FirstRequired(p, p[order[k]])
  }

  predicate FirstTight(order: seq<BBId>, block: BlockId, l: LayoutMap)
    requires Valid(order, block, l)
  {
    forall k :: 0 <= k < |order| ==> FirstTightAt(order, block, l, k)
  }

  lemma {:induction false} ExpandAbove(order: seq<BBId>, block: BlockId, p: LayoutMap)
    requires Valid(order, block, p)
    ensures Valid(order, block, Expand(order, block, p))
    ensures Valid(order, block, Place(order, block, Expand(order, block, p)))
    ensures Below(order, p, Place(order, block, Expand(order, block, p)))
  {
    ExpandValid(order, block, p);
    var e := Expand(order, block, p);
    PlaceValid(order, block, e);
    var q := Place(order, block, e);
    assert q.Keys == p.Keys;
    forall id | id in order
      ensures q[id].basicBlock == p[id].basicBlock && q[id].basicBlockSize == p[id].basicBlockSize
      ensures |q[id].successors| == |p[id].successors| == 2
      ensures forall i :: 0 <= i < 2 ==> SameSlot(p[id].successors[i], q[id].successors[i])
      ensures forall i :: 0 <= i < 2 ==> SizeOf(p[id].successors[i]) <= SizeOf(q[id].successors[i])
    {
      assert q[id].successors == ExpandInfo(p, p[id]).successors;
    }
  }

  /** What is between a branch and its target does not depend on offsets and sizes. */
  lemma {:induction false} SpanStays(order: seq<BBId>, a: LayoutMap, b: LayoutMap, k: nat)
    requires SameShape(order, a, b) && k < |order| && forall id :: id in order ==> id in a && |a[id].successors| == 2
    ensures FirstSpanAligned(order, a, k) <==> FirstSpanAligned(order, b, k)
  {
    assert SameSlot(a[order[k]].successors[0], b[order[k]].successors[0]);
    assert forall m :: 0 <= m < |order| ==> a[order[m]].basicBlock == b[order[m]].basicBlock;
  }

  lemma {:induction false} TightnessKept(order: seq<BBId>, block: BlockId, l: LayoutMap, k: nat)
    requires Valid(order, block, l) && k < |order| && FirstSpanAligned(order, l, k) && FirstTightAt(order, block, l, k)
    requires Valid(order, block, Place(order, block, l))
    ensures var e := Expand(order, block, Place(order, block, l));
      Valid(order, block, e) && FirstSpanAligned(order, e, k) && FirstTightAt(order, block, e, k)
  {
    PassKeepsShape(order, block, l);
    PlaceIsPlaced(order, block, l);
    var p := Place(order, block, l);
    ExpandAbove(order, block, p);
    var e := Expand(order, block, p);
    PlaceIsPlaced(order, block, e);
    var q := Place(order, block, e);
    assert q[order[k]].successors == ExpandInfo(p, p[order[k]]).successors;
    SpanStays(order, l, p, k);
    SpanStays(order, l, e, k);
    FirstRequiredMonotone(order, block, p, q, k);
  }

  lemma {:induction false} FreshIsTight(order: seq<BBId>, block: BlockId, l: LayoutMap)
    requires Valid(order, block, l) && Fresh(order, l)
    ensures FirstTight(order, block, l)
  {
    PlaceValid(order, block, l);
    var p := Place(order, block, l);
    forall k | 0 <= k < |order|
      ensures SizeOf(p[order[k]].successors[0]) <= FirstRequired(p, p[order[k]])
    {
      assert p[order[k]].successors == l[order[k]].successors;
      assert SizeOf(l[order[k]].successors[0]) == 0;
    }
  }

  lemma {:induction false} RelaxedIsTight(order: seq<BBId>, block: BlockId, l: LayoutMap, k: nat)
    requires Valid(order, block, l) && k < |order| && FirstSpanAligned(order, l, k) && FirstTightAt(order, block, l, k)
    ensures var r := Relax(order, block, l);
      SizeOf(r[order[k]].successors[0]) <= FirstRequired(r, r[order[k]])
    decreases Slack(order, l, |order|)
  {
    PassProgress(order, block, l);
    TightnessKept(order, block, l, k);
    var e := Expand(order, block, Place(order, block, l));
    if e != Place(order, block, l) {
      RelaxedIsTight(order, block, e, k);
    }
  }

  /** Start offsets grow along the order. */
  lemma {:induction false} StartsAscend(order: seq<BBId>, block: BlockId, l: LayoutMap, k: nat, j: nat)
    requires Valid(order, block, l) && k < j < |order|
    ensures StartOf(order, l, k) + TotalSize(l[order[k]]) <= StartOf(order, l, j)
  {
    if k < j - 1 {
      StartsAscend(order, block, l, k, j - 1);
    }
  }

  /** Where both successors are branches and the second one leads back in the order, no basic block between
      them and the target of the first one is aligned. */
  predicate SecondSafe(order: seq<BBId>, l: LayoutMap, k: nat)
    requires (forall id :: id in order ==> id in l) && k < |order| && |l[order[k]].successors| == 2
  {
    var s0, s1 := l[order[k]].successors[0], l[order[k]].successors[1];
    && s0.Manifested? && s1.Manifested? && s1.reference.ToBasicBlock? && s1.reference.bb in order
    && IndexOf(order, s1.reference.bb) <= k ==>
      FirstSpanAligned(order, l, k)
  }

  /** The order and the alignments of its basic blocks keep every short branch within reach. */
  predicate SafeLayout(order: seq<BBId>, l: LayoutMap)
    requires forall id :: id in order ==> id in l && |l[id].successors| == 2
  {
    forall k :: 0 <= k < |order| ==> SecondSafe(order, l, k)
  }

  /** A second branch that leads ahead has room: its target comes behind all of its basic block. */
  lemma {:induction false} AheadHasRoom(order: seq<BBId>, block: BlockId, r: LayoutMap, k: nat)
    requires Valid(order, block, r) && Placed(order, r) && Expand(order, block, r) == r && k < |order|
    requires var s1 := r[order[k]].successors[1];
      s1.Manifested? && s1.reference.ToBasicBlock? && s1.reference.bb in order && IndexOf(order, s1.reference.bb) > k
    ensures SecondHasRoom(r, r[order[k]])
  {
    StableSlots(order, block, r, order[k]);
    StartsAscend(order, block, r, k, IndexOf(order, r[order[k]].successors[1].reference.bb));
  }

  /** A second branch whose first one is no larger than required has room. */
  lemma {:induction false} TightHasRoom(order: seq<BBId>, block: BlockId, r: LayoutMap, k: nat)
    requires Valid(order, block, r) && Expand(order, block, r) == r && k < |order|
    requires SizeOf(r[order[k]].successors[0]) <= FirstRequired(r, r[order[k]])
    ensures SecondHasRoom(r, r[order[k]])
  {
    StableSlots(order, block, r, order[k]);
  }

  /** A short second branch never leads out of the order. */
  lemma {:induction false} ShortStaysInside(order: seq<BBId>, block: BlockId, r: LayoutMap, k: nat)
    requires Valid(order, block, r) && Expand(order, block, r) == r && k < |order|
    requires var s1 := r[order[k]].successors[1];
      s1.Manifested? && s1.reference.ToBasicBlock? && s1.size == ShortSuccessorSize(s1.condition)
    ensures r[order[k]].successors[1].reference.bb in order
  {
    StableSlots(order, block, r, order[k]);
  }

  /** The layout that relaxation stops at can be emitted if the order and the alignments are safe: every short
      branch, first or second, has its target within reach of a signed byte. Both can be seen before. */
  lemma {:induction false} SafeLayoutFits(order: seq<BBId>, block: BlockId, l: LayoutMap)
    requires Valid(order, block, l) && Fresh(order, l) && SafeLayout(order, l)
    ensures SelfConsistent(order, block, Relax(order, block, l))
  {
    FreshIsTight(order, block, l);
    RelaxedFitsIff(order, block, l);
    RelaxIsStable(order, block, l);
    RelaxKeepsShape(order, block, l);
    var r := Relax(order, block, l);
    forall id | id in order
      ensures SecondHasRoom(r, r[id])
    {
      SafeHasRoom(order, block, l, r, IndexOf(order, id));
    }
  }

  lemma {:induction false} SafeHasRoom(order: seq<BBId>, block: BlockId, l: LayoutMap, r: LayoutMap, k: nat)
    requires Valid(order, block, l) && k < |order| && SecondSafe(order, l, k) && FirstTightAt(order, block, l, k)
    requires r == Relax(order, block, l) && Placed(order, r) && Expand(order, block, r) == r && SameShape(order, l, r)
    ensures SecondHasRoom(r, r[order[k]])
  {
    var s0, s1 := r[order[k]].successors[0], r[order[k]].successors[1];
    assert SameSlot(l[order[k]].successors[0], s0) && SameSlot(l[order[k]].successors[1], s1);
    if s0.Manifested? && s1.Manifested? && s1.reference.ToBasicBlock? && s1.size == ShortSuccessorSize(s1.condition) {
      ShortStaysInside(order, block, r, k);
      if IndexOf(order, s1.reference.bb) > k {
        AheadHasRoom(order, block, r, k);
      } else {
        RelaxedIsTight(order, block, l, k);
        TightHasRoom(order, block, r, k);
      }
    }
  }

  lemma {:induction false} ByteAlignedIsSafe(order: seq<BBId>, l: LayoutMap)
    requires (forall id :: id in order ==> id in l && |l[id].successors| == 2) && ByteAligned(order, l)
    ensures SafeLayout(order, l) && forall k :: 0 <= k < |order| ==> FirstSpanAligned(order, l, k)
  {
  }

  /** With all alignments one, the layout that relaxation stops at can be emitted. */
  lemma {:induction false} RelaxedFits(order: seq<BBId>, block: BlockId, l: LayoutMap)
    requires Valid(order, block, l) && Fresh(order, l) && ByteAligned(order, l)
    ensures SelfConsistent(order, block, Relax(order, block, l))
  {
    ByteAlignedIsSafe(order, l);
    SafeLayoutFits(order, block, l);
  }

  // ----- the least layout -----

  lemma {:induction false} PlacedStaysBelow(order: seq<BBId>, block: BlockId, l: LayoutMap, s: LayoutMap)
    requires Valid(order, block, l) && Below(order, l, s)
    ensures Below(order, Place(order, block, l), s)
  {
    var p := Place(order, block, l);
    assert p.Keys == l.Keys;
    assert forall id :: id in order ==> p[id].successors == l[id].successors;
  }

  lemma {:induction false} ExpandedSlotsBelow(order: seq<BBId>, block: BlockId, p: LayoutMap, s: LayoutMap, k: nat)
    requires Valid(order, block, p) && ByteAligned(order, p) && Placed(order, p)
    requires SelfConsistent(order, block, s) && Below(order, p, s)
    requires k < |order| && SizeOf(p[order[k]].successors[0]) <= FirstRequired(p, p[order[k]])
    ensures var e := ExpandInfo(p, p[order[k]]);
      forall i :: 0 <= i < 2 ==>
        && SameSlot(e.successors[i], s[order[k]].successors[i])
        && SizeOf(e.successors[i]) <= SizeOf(s[order[k]].successors[i])
  {
    var id := order[k];
    assert SameSlot(p[id].successors[0], s[id].successors[0]) && SameSlot(p[id].successors[1], s[id].successors[1]);
    assert SizeOf(p[id].successors[0]) <= SizeOf(s[id].successors[0]);
    assert SizeOf(p[id].successors[1]) <= SizeOf(s[id].successors[1]);
    ByteAlignedIsSafe(order, p);
    FirstRequiredMonotone(order, block, p, s, k);
    assert BranchFits(s, s[id], 0);
    SecondRequiredBelow(order, block, p, s, k);
  }

  lemma {:induction false} PassStaysBelow(order: seq<BBId>, block: BlockId, l: LayoutMap, s: LayoutMap)
    requires Valid(order, block, l) && ByteAligned(order, l) && FirstTight(order, block, l)
    requires SelfConsistent(order, block, s) && Below(order, l, s)
    requires Valid(order, block, Place(order, block, l))
    ensures Below(order, Place(order, block, l), s)
    ensures Below(order, Expand(order, block, Place(order, block, l)), s)
  {
    PlaceIsPlaced(order, block, l);
    PlacedStaysBelow(order, block, l, s);
    var p := Place(order, block, l);
    var e := Expand(order, block, p);
    assert e.Keys == p.Keys;
    forall id | id in order
      ensures forall i :: 0 <= i < 2 ==>
        && SameSlot(e[id].successors[i], s[id].successors[i])
        && SizeOf(e[id].successors[i]) <= SizeOf(s[id].successors[i])
    {
      assert FirstTightAt(order, block, l, IndexOf(order, id));
      ExpandedSlotsBelow(order, block, p, s, IndexOf(order, id));
    }
  }

  /** With all alignments one, relaxation finds the least layout that can be emitted: no choice of
      short and long encodings for the same order gives any branch fewer bytes. */
  lemma {:induction false} RelaxedIsLeast(order: seq<BBId>, block: BlockId, l: LayoutMap, s: LayoutMap)
    requires Valid(order, block, l) && ByteAligned(order, l) && FirstTight(order, block, l)
    requires SelfConsistent(order, block, s) && Below(order, l, s)
    ensures Below(order, Relax(order, block, l), s)
    decreases Slack(order, l, |order|)
  {
    PassProgress(order, block, l);
    PassStaysBelow(order, block, l, s);
    PassKeepsShape(order, block, l);
    ByteAlignedIsSafe(order, l);
    var e := Expand(order, block, Place(order, block, l));
    forall k | 0 <= k < |order| ensures FirstTightAt(order, block, e, k) {
      TightnessKept(order, block, l, k);
    }
    if e != Place(order, block, l) {
      RelaxedIsLeast(order, block, e, s);
    }
  }

  /** The form of `RelaxedIsLeast` for the layout that initialization produces. */
  lemma {:induction false} RelaxedIsLeastFromFresh(order: seq<BBId>, block: BlockId, l: LayoutMap, s: LayoutMap)
    requires Valid(order, block, l) && ByteAligned(order, l) && Fresh(order, l)
    requires SelfConsistent(order, block, s) && SameShape(order, l, s)
    ensures Below(order, Relax(order, block, l), s)
  {
    FreshIsTight(order, block, l);
    assert Below(order, l, s);
    RelaxedIsLeast(order, block, l, s);
  }
}
