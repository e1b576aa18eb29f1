/** Merging the blocks that intersect a range: which blocks those are, where they go and what bytes the
    new block gets. */
module MergeSteps {
  import opened Types
  import opened GraphSpecs
  import opened AddressRanges
  import opened Merging
  import opened Buffers

  // ----- the intersecting blocks -----

  /** The ranges from position `i` up to `j` are those that intersect the given one. */
  ghost predicate IntersectingRun(rs: Ranges, i: nat, j: nat, start: int, size: nat)
  {
    i <= j <= |rs| && forall k :: 0 <= k < |rs| ==> (Intersects(rs[k], start, size) <==> i <= k < j)
  }

  function Begin(es: Ranges, start: int): int
    requires es != []
  {
    if start < es[0].start then start else es[0].start
  }

  function End(es: Ranges, start: int, size: nat): int
    requires es != []
  {
    var last := es[|es| - 1];
    if start + size < last.start + last.size then last.start + last.size else start + size
  }

  /** The other ranges leave room for a range that covers the intersecting ones. */
  lemma {:induction false} RoomForMerged(rs: Ranges, i: nat, j: nat, start: int, size: nat, k: nat)
    requires Ordered(rs) && IntersectingRun(rs, i, j, start, size) && i < j && k < |rs| && !(i <= k < j)
    ensures Begin(rs[i..j], start) < End(rs[i..j], start, size)
    ensures !Intersects(rs[k], Begin(rs[i..j], start), End(rs[i..j], start, size) - Begin(rs[i..j], start))
  {
    assert rs[i..j][0] == rs[i] && rs[i..j][j - i - 1] == rs[j - 1];
    assert Intersects(rs[i], start, size) && Intersects(rs[j - 1], start, size);
  }

  /** The intersecting ranges lie in the range that covers them. */
  lemma {:induction false} Covered(rs: Ranges, i: nat, j: nat, start: int, size: nat, k: nat)
    requires Ordered(rs) && IntersectingRun(rs, i, j, start, size) && i <= k < j
    ensures Begin(rs[i..j], start) <= rs[k].start
    ensures rs[k].start + rs[k].size <= End(rs[i..j], start, size)
  {
    assert rs[i..j][0] == rs[i] && rs[i..j][j - i - 1] == rs[j - 1];
  }

  // ----- where they go -----

  /** The references of a block lie in it. */
  ghost predicate InBounds(f: Graph, b: BlockId)
  {
    b in f && forall o :: o in f[b].references ==> 0 <= o < f[b].size
  }

  /** The ranges of two blocks do not overlap. */
  predicate Apart(f: Graph, before: map<BlockId, int>, b: BlockId, c: BlockId)
  {
    && b in f && c in f && b in before && c in before
    && (before[b] + f[b].size <= before[c] || before[c] + f[c].size <= before[b])
  }

  /** A block that has not been moved is referred to as it was. */
  lemma {:induction false} FitsUntilMoved(f: Graph, g: Graph, moved: Placement, into: BlockId,
                                          origin: map<int, BlockId>, b: BlockId, d: int)
    requires Relocated(f, g, moved, into, origin) && b in g && b != into && MoveFits(f, b, d, into)
    requires g[into].size == f[into].size
    ensures MoveFits(g, b, d, into)
  {
    forall c: BlockId, o: int | Refers(g, c, o, b)
      ensures g[b].kind == CodeBlock ==> 0 <= g[c].references[o].offset + d <= g[into].size
    {
      var c', o' := RelocatedBackward(f, g, moved, into, origin, c, o);
      assert Refers(f, c', o', b);
    }
  }

  /** What is left of a block when its references, referrers and labels are taken out. */
  function Rest(b: Block): Block { b.(references := map[], referrers := {}, labels := map[]) }

  /** In the middle of a merge: the blocks in `moved` have become part of block `into`; `f` is the graph at
      the beginning. */
  ghost predicate MergeState(f: Graph, g: Graph, moved: Placement, into: BlockId, origin: map<int, BlockId>)
  {
    Relocated(f, g, moved, into, origin) && Rest(g[into]) == Rest(f[into])
  }

  lemma {:induction false} MergeBegins(f: Graph, into: BlockId)
    requires into in f && f[into].references == map[]
    ensures MergeState(f, f, map[], into, map[])
  {
    RelocatedNone(f, into);
  }

  /** Labels that are added to the new block. */
  lemma {:induction false} MergeLabels(f: Graph, g: Graph, h: Graph, moved: Placement, into: BlockId,
                                       origin: map<int, BlockId>, labels: map<int, Label>)
    requires MergeState(f, g, moved, into, origin)
    requires h == g[into := g[into].(labels := labels)]
    ensures MergeState(f, h, moved, into, origin)
  {
    RelocatedIgnoresLabels(f, g, h, moved, into, origin, labels);
  }

  /** Moving one more block. */
  lemma {:induction false} MergeMoves(f: Graph, g: Graph, h: Graph, moved: Placement, into: BlockId,
                   origin: map<int, BlockId>, origin': map<int, BlockId>, b: BlockId, d: int)
    requires MergeState(f, g, moved, into, origin) && b in g && b != into && LandsFree(f, origin, b, d)
    requires h == BlockMovedIn(g, b, into, d) && origin' == NewOrigin(f, origin, b, d)
    ensures MergeState(f, h, moved[b := d], into, origin')
  {
    RelocateStep(f, g, h, moved, into, origin, origin', b, d);
    MovedKeepsRest(g, h, b, into, d);
  }

  lemma {:induction false} MovedKeepsRest(g: Graph, h: Graph, b: BlockId, into: BlockId, d: int)
    requires b in g && into in g && b != into && h == BlockMovedIn(g, b, into, d)
    ensures into in h && h[into].labels == g[into].labels && Rest(h[into]) == Rest(g[into])
  {
  }

  /** The moved blocks lie at their addresses, before others whose references lie in them. */
  ghost predicate MovedFrom(f: Graph, before: map<BlockId, int>, moved: Placement, begin: int)
  {
    forall c :: c in moved ==> InBounds(f, c) && c in before && moved[c] == before[c] - begin
  }

  /** References of blocks that do not overlap go to different places. */
  lemma {:induction false} LandsApart(f: Graph, g: Graph, before: map<BlockId, int>, moved: Placement, begin: int,
                                      into: BlockId, origin: map<int, BlockId>, b: BlockId)
    requires Relocated(f, g, moved, into, origin) && MovedFrom(f, before, moved, begin)
    requires InBounds(f, b) && b in before && forall c :: c in moved ==> Apart(f, before, b, c)
    ensures LandsFree(f, origin, b, before[b] - begin)
  {
    var d := before[b] - begin;
    forall x | x in origin
      ensures !(d <= x < d + f[b].size)
    {
      assert ComesFrom(f, g[into].references, moved, into, x, origin[x]);
      assert Apart(f, before, b, origin[x]);
    }
  }

  /** A block that is still to be moved can be moved. */
  lemma {:induction false} MergeVisits(f: Graph, g: Graph, before: map<BlockId, int>, moved: Placement, begin: int,
                                       into: BlockId, origin: map<int, BlockId>, b: BlockId)
    requires MergeState(f, Strip(g), moved, into, origin) && MovedFrom(f, before, moved, begin)
    requires b in f && b !in moved && b != into && b in before && MoveFits(f, b, before[b] - begin, into)
    requires InBounds(f, b) && forall c :: c in moved ==> Apart(f, before, b, c)
    ensures b in g && into in g && g[b].labels == f[b].labels && g[b].name == f[b].name
    ensures MoveFits(g, b, before[b] - begin, into) && LandsFree(f, origin, b, before[b] - begin)
  {
    var d := before[b] - begin;
    LandsApart(f, Strip(g), before, moved, begin, into, origin, b);
    assert b in Strip(g) && into in Strip(g);
    StripAt(g, b);
    StripAt(g, into);
    FitsUntilMoved(f, Strip(g), moved, into, origin, b, d);
    forall c: BlockId, o: int | Refers(g, c, o, b)
      ensures g[b].kind == CodeBlock ==> 0 <= g[c].references[o].offset + d <= g[into].size
    {
      StripAt(g, c);
      assert Refers(Strip(g), c, o, b);
    }
  }

  function BlocksOf(es: Ranges): set<BlockId> { set e | e in es :: e.block }

  /** The block of a range can be moved into block `into`, which starts at `begin`. */
  ghost predicate CanMove(f: Graph, before: map<BlockId, int>, begin: int, into: BlockId, e: Entry)
  {
    && into in f && e.block != into && InBounds(f, e.block) && MoveFits(f, e.block, e.start - begin, into)
    && e.block in before && before[e.block] == e.start && f[e.block].size == e.size
  }

  /** The blocks of the first `i` ranges have been moved. */
  ghost predicate MovedSoFar(f: Graph, before: map<BlockId, int>, moved: Placement, begin: int, es: Ranges, i: nat)
    requires i <= |es|
  {
    MovedFrom(f, before, moved, begin) && moved.Keys == BlocksOf(es[..i])
  }

  lemma {:induction false} OneMoreOf(es: Ranges, i: nat)
    requires i < |es|
    ensures BlocksOf(es[..i + 1]) == BlocksOf(es[..i]) + {es[i].block}
  {
    assert es[..i + 1] == es[..i] + [es[i]];
  }

  lemma {:induction false} MoveOneMoreBlock(f: Graph, before: map<BlockId, int>, moved: Placement, begin: int,
                                            es: Ranges, i: nat, into: BlockId)
    requires CanMoveAll(f, before, begin, into, es) && i < |es|
    requires MovedSoFar(f, before, moved, begin, es, i)
    ensures MovedSoFar(f, before, moved[es[i].block := es[i].start - begin], begin, es, i + 1)
    ensures es[i].block !in moved && forall c :: c in moved ==> Apart(f, before, es[i].block, c)
  {
    hide MoveFits;
    OneMoreOf(es, i);
    assert CanMove(f, before, begin, into, es[i]);
    forall c | c in moved
      ensures Apart(f, before, es[i].block, c) && c != es[i].block
    {
      var e :| e in es[..i] && e.block == c;
      assert CanMove(f, before, begin, into, e);
    }
  }

  /** The label at `x` when the labels `more` of a block, `d` bytes further on, and its name are added
      where there is no label yet. */
  function LabelAt(was: map<int, Label>, more: map<int, Label>, name: Option<Label>, d: int, x: int): Option<Label>
  {
    if x in was then Some(was[x])
    else if x == d && name.Some? then name
    else Get(more, x - d)
  }

  ghost predicate LabelsAdded(was: map<int, Label>, now: map<int, Label>, more: map<int, Label>,
                              name: Option<Label>, d: int)
  {
    forall x {:trigger Get(now, x)} :: Get(now, x) == LabelAt(was, more, name, d, x)
  }

  lemma {:induction false} NameAdded(was: map<int, Label>, name: Option<Label>, d: int)
    ensures LabelsAdded(was, if d !in was && name.Some? then was[d := name.value] else was, map[], name, d)
  {
  }

  function AddedLabel(now: map<int, Label>, x: int, l: Label): map<int, Label>
  {
    if x in now then now else now[x := l]
  }

  lemma {:induction false} LabelAdded(was: map<int, Label>, now: map<int, Label>, done: map<int, Label>,
                                      name: Option<Label>, d: int, k: int, l: Label)
    requires LabelsAdded(was, now, done, name, d) && k !in done
    ensures LabelsAdded(was, AddedLabel(now, d + k, l), done[k := l], name, d)
  {
    assert Get(now, d + k) == LabelAt(was, done, name, d, d + k);
    var after := AddedLabel(now, d + k, l);
    forall x
      ensures Get(after, x) == LabelAt(was, done[k := l], name, d, x)
    {
      assert Get(now, x) == LabelAt(was, done, name, d, x);
    }
  }

  const DATA_LABEL: nat := 256

  /** The label that keeps the name of a block that is merged into one that is not code. */
  function NameLabel(b: Block, kind: BlockType): Option<Label>
  {
    if kind != CodeBlock && b.name != "" then Some(Label(b.name, DATA_LABEL)) else None
  }

  /** The label that a block itself brings to offset `x` of the new block, where it starts at `d`: its name, or one
      of its labels. */
  function OwnLabel(b: Block, d: int, kind: BlockType, x: int): Option<Label>
  {
    if x == d && NameLabel(b, kind).Some? then NameLabel(b, kind) else Get(b.labels, x - d)
  }

  /** The label at offset `x` of the new block: the one that the first block to have one there brings. */
  function MergedLabel(f: Graph, es: Ranges, begin: int, kind: BlockType, x: int): Option<Label>
    requires forall e :: e in es ==> e.block in f
  {
    if es == [] then None
    else
      var n := |es| - 1;
      var earlier := MergedLabel(f, es[..n], begin, kind, x);
      if earlier.Some? then earlier else OwnLabel(f[es[n].block], es[n].start - begin, kind, x)
  }

  ghost predicate LabelsMerged(f: Graph, labels: map<int, Label>, es: Ranges, begin: int, kind: BlockType)
    requires forall e :: e in es ==> e.block in f
  {
    forall x {:trigger Get(labels, x)} :: Get(labels, x) == MergedLabel(f, es, begin, kind, x)
  }

  lemma {:induction false} OneMoreLabelled(f: Graph, was: map<int, Label>, now: map<int, Label>, es: Ranges, i: nat,
                                           begin: int, kind: BlockType)
    requires i < |es| && forall e :: e in es ==> e.block in f
    requires LabelsMerged(f, was, es[..i], begin, kind)
    requires var b := f[es[i].block]; LabelsAdded(was, now, b.labels, NameLabel(b, kind), es[i].start - begin)
    ensures LabelsMerged(f, now, es[..i + 1], begin, kind)
  {
    var b := f[es[i].block];
    assert es[..i + 1][..i] == es[..i];
    forall x ensures Get(now, x) == MergedLabel(f, es[..i + 1], begin, kind, x) {
      assert Get(was, x) == MergedLabel(f, es[..i], begin, kind, x);
      assert Get(now, x) == LabelAt(was, b.labels, NameLabel(b, kind), es[i].start - begin, x);
    }
  }

  /** Every label of a merged block is at its address, unless an earlier block brings one there or the block's name
      takes its place. */
  lemma {:induction false} LabelStays(f: Graph, es: Ranges, begin: int, kind: BlockType, i: nat, x: int)
    requires i < |es| && forall e :: e in es ==> e.block in f
    requires OwnLabel(f[es[i].block], es[i].start - begin, kind, x).Some?
    ensures MergedLabel(f, es, begin, kind, x).Some?
    ensures (forall j :: 0 <= j < i ==> OwnLabel(f[es[j].block], es[j].start - begin, kind, x).None?) ==>
      MergedLabel(f, es, begin, kind, x) == OwnLabel(f[es[i].block], es[i].start - begin, kind, x)
    decreases |es|
  {
    var n := |es| - 1;
    if i < n {
      LabelStays(f, es[..n], begin, kind, i, x);
    } else if forall j :: 0 <= j < n ==> OwnLabel(f[es[j].block], es[j].start - begin, kind, x).None? {
      NoLabelThere(f, es[..n], begin, kind, x);
    }
  }

  lemma {:induction false} NoLabelThere(f: Graph, es: Ranges, begin: int, kind: BlockType, x: int)
    requires forall e :: e in es ==> e.block in f
    requires forall j :: 0 <= j < |es| ==> OwnLabel(f[es[j].block], es[j].start - begin, kind, x).None?
    ensures MergedLabel(f, es, begin, kind, x).None?
    decreases |es|
  {
    if es != [] {
      assert es[|es| - 1] in es;
      NoLabelThere(f, es[..|es| - 1], begin, kind, x);
    }
  }

  /** A block that starts at `d` of the new block has something to label offset `x` with. */
  predicate Brings(b: Block, d: int, kind: BlockType, x: int)
  {
    x - d in b.labels || (x == d && kind != CodeBlock && b.name != "")
  }

  predicate FirstToBring(f: Graph, es: Ranges, begin: int, kind: BlockType, x: int, i: int)
    requires forall e :: e in es ==> e.block in f
  {
    && 0 <= i < |es| && Brings(f[es[i].block], es[i].start - begin, kind, x)
    && forall j :: 0 <= j < i ==> !Brings(f[es[j].block], es[j].start - begin, kind, x)
  }

  /** The new block has a label exactly where some block brings one: that of the first block to do so. A block that
      does not become code brings its name, as a data label, to where it starts. */
  lemma {:induction false} LabelsAreMerged(f: Graph, labels: map<int, Label>, es: Ranges, begin: int, kind: BlockType,
                                           x: int)
    requires (forall e :: e in es ==> e.block in f) && LabelsMerged(f, labels, es, begin, kind)
    ensures x in labels <==>
      exists i :: 0 <= i < |es| && Brings(f[es[i].block], es[i].start - begin, kind, x)
    ensures forall i :: FirstToBring(f, es, begin, kind, x, i) ==>
      var b, d := f[es[i].block], es[i].start - begin;
      x in labels && labels[x] == if x == d && kind != CodeBlock && b.name != "" then Label(b.name, DATA_LABEL)
                                  else b.labels[x - d]
  {
    hide MergedLabel;
    assert Get(labels, x) == MergedLabel(f, es, begin, kind, x);
    if forall i :: 0 <= i < |es| ==> OwnLabel(f[es[i].block], es[i].start - begin, kind, x).None? {
      NoLabelThere(f, es, begin, kind, x);
    }
    forall i | 0 <= i < |es| && Brings(f[es[i].block], es[i].start - begin, kind, x)
      ensures x in labels
      ensures FirstToBring(f, es, begin, kind, x, i) ==>
        Some(labels[x]) == OwnLabel(f[es[i].block], es[i].start - begin, kind, x)
    {
      LabelStays(f, es, begin, kind, i, x);
    }
  }

  /** All blocks of the ranges can be moved. */
  ghost predicate CanMoveAll(f: Graph, before: map<BlockId, int>, begin: int, into: BlockId, es: Ranges)
  {
    Ordered(es) && forall e :: e in es ==> CanMove(f, before, begin, into, e)
  }

  lemma {:induction false} MovableExist(f: Graph, before: map<BlockId, int>, begin: int, into: BlockId, es: Ranges)
    requires CanMoveAll(f, before, begin, into, es)
    ensures forall e :: e in es ==> e.block in f
  {
    forall e | e in es ensures e.block in f { assert CanMove(f, before, begin, into, e); }
  }

  /** The next block can be moved. */
  lemma {:induction false} MergeNext(f: Graph, g: Graph, before: map<BlockId, int>, moved: Placement, begin: int,
                                     into: BlockId, origin: map<int, BlockId>, es: Ranges, i: nat)
    requires CanMoveAll(f, before, begin, into, es) && i < |es|
    requires MergeState(f, Strip(g), moved, into, origin) && MovedSoFar(f, before, moved, begin, es, i)
    ensures var b, d := es[i].block, es[i].start - begin;
      && b in g && into in g && b in f && b != into && g[b].labels == f[b].labels && g[b].name == f[b].name
      && MoveFits(g, b, d, into) && LandsFree(f, origin, b, d)
      && MovedSoFar(f, before, moved[b := d], begin, es, i + 1)
  {
    assert CanMove(f, before, begin, into, es[i]);
    MoveOneMoreBlock(f, before, moved, begin, es, i, into);
    MergeVisits(f, g, before, moved, begin, into, origin, es[i].block);
  }

  lemma {:induction false} StripLabels(g: Graph, into: BlockId, labels: map<int, Label>)
    requires into in g
    ensures Strip(g[into := g[into].(labels := labels)]) == Strip(g)[into := Strip(g)[into].(labels := labels)]
  {
  }

  lemma {:induction false} StillFitsLabelled(g: Graph, into: BlockId, labels: map<int, Label>, b: BlockId, d: int)
    requires into in g && b in g && b != into && MoveFits(g, b, d, into)
    ensures MoveFits(g[into := g[into].(labels := labels)], b, d, into)
  {
    var h := g[into := g[into].(labels := labels)];
    forall c: BlockId, o: int | Refers(h, c, o, b)
      ensures g[b].kind == CodeBlock ==> 0 <= h[c].references[o].offset + d <= h[into].size
    {
      assert Refers(g, c, o, b);
    }
  }

  // ----- the bytes -----

  /** The byte that the allocated data of the blocks has at an address, zero if there is none. */
  function MergedByte(g: Graph, es: Ranges, a: int): uint8
    requires forall e :: e in es ==> e.block in g
  {
    if es == [] then 0
    else
      var e := es[|es| - 1];
      var data := g[e.block].data;
      if e.start <= a < e.start + |data| then data[a - e.start] else MergedByte(g, es[..|es| - 1], a)
  }

  /** Every block has its bytes at its address; data is never longer than the block. */
  lemma {:induction false} MergedByteAt(g: Graph, es: Ranges, i: nat, k: nat)
    requires Ordered(es) && forall e :: e in es ==> e.block in g && |g[e.block].data| <= g[e.block].size == e.size
    requires i < |es| && k < es[i].size
    ensures MergedByte(g, es, es[i].start + k) == Contents(g[es[i].block])[k]
  {
    hide Contents, Ordered, MergedByte;
    var n := |es| - 1;
    assert es[i] in es;
    ContentsAt(g[es[i].block], k);
    LastByte(g, es, es[i].start + k);
    FrontOrdered(es);
    if i < n {
      assert es[..n][i] == es[i];
      MergedByteAt(g, es[..n], i, k);
    } else if k >= |g[es[n].block].data| {
      NoByteBehind(g, es[..n], es[n].start + k);
    }
  }

  lemma {:induction false} LastByte(g: Graph, es: Ranges, a: int)
    requires es != [] && forall e :: e in es ==> e.block in g
    ensures var n := |es| - 1;
      var data := g[es[n].block].data;
      MergedByte(g, es, a) ==
        if es[n].start <= a < es[n].start + |data| then data[a - es[n].start] else MergedByte(g, es[..n], a)
    ensures es[|es| - 1] in es
  {
  }

  lemma {:induction false} FrontOrdered(es: Ranges)
    requires Ordered(es) && es != []
    ensures var n := |es| - 1; Ordered(es[..n]) && forall j :: 0 <= j < n ==> es[j].start + es[j].size <= es[n].start
  {
  }

  lemma {:induction false} NoByteBehind(g: Graph, es: Ranges, a: int)
    requires forall e :: e in es ==> e.block in g && |g[e.block].data| <= e.size
    requires forall i :: 0 <= i < |es| ==> es[i].start + es[i].size <= a || a < es[i].start
    ensures MergedByte(g, es, a) == 0
  {
    if es != [] {
      assert es[|es| - 1] in es;
      NoByteBehind(g, es[..|es| - 1], a);
    }
  }

  /** The merged data of the blocks, and whether any of them has data. */
  method MergeData(g: Graph, es: Ranges, begin: int, size: nat) returns (data: seq<uint8>, haveData: bool)
    requires forall e :: e in es ==>
      e.block in g && begin <= e.start && e.start + |g[e.block].data| <= begin + size
    ensures |data| == size && forall x :: 0 <= x < size ==> data[x] == MergedByte(g, es, begin + x)
    ensures haveData <==> exists e :: e in es && g[e.block].data != []
  {
    var buffer := new uint8[size](_ => 0);
    haveData := false;
    for i := 0 to |es|
      invariant forall x :: 0 <= x < size ==> buffer[x] == MergedByte(g, es[..i], begin + x)
      invariant haveData <==> exists k :: 0 <= k < i && g[es[k].block].data != []
    {
      var e := es[i];
      assert e in es && es[..i + 1][..i] == es[..i];
      if g[e.block].data != [] {
        haveData := true;
        CopyBytes(buffer, e.start - begin, g[e.block].data);
      }
    }
    assert es[..|es|] == es;
    data := buffer[..];
  }

  // ----- the whole merge -----

  /** What merging demands of the blocks: one kind, one section, no data behind the end, references that lie
      in their block, and targets in code that lie in the code. */
  ghost predicate Mergeable(g: Graph, es: Ranges)
  {
    forall e :: e in es ==>
      && e.block in g && es[0].block in g
      && g[e.block].kind == g[es[0].block].kind && g[e.block].section == g[es[0].block].section
      && |g[e.block].data| <= g[e.block].size
      && InBounds(g, e.block)
      && (g[e.block].kind == CodeBlock ==> forall c: BlockId, o: int :: Refers(g, c, o, e.block) ==>
            0 <= g[c].references[o].offset <= g[e.block].size)
  }

  /** The block that is made for a merge, before anything has been moved into it. */
  function MergedBlock(g: Graph, es: Ranges, begin: int, size: nat, data: seq<uint8>, attributes: set<Attribute>): Block
    requires es != [] && es[0].block in g
  {
    var first := g[es[0].block];
    Block(first.kind, size, first.alignment, begin, first.section, attributes, first.name, "", map[], data, map[], {})
  }

  /** The attributes that are kept only if all blocks have them. */
  predicate IsUniform(a: Attribute) { a in {GAP_BLOCK, PADDING_BLOCK, BUILT_BY_SYZYGY} }

  /** The new block has the uniform attributes that all blocks have, and the others that some block has. */
  ghost predicate HoldsAttributes(g: Graph, es: Ranges, attributes: set<Attribute>)
    requires forall e :: e in es ==> e.block in g
  {
    forall a: Attribute :: a in attributes <==>
      if IsUniform(a) then AllHave(g, es, a) else SomeHas(g, es, a)
  }

  predicate AllHave(g: Graph, es: Ranges, a: Attribute)
    requires forall e :: e in es ==> e.block in g
  {
    forall e :: e in es ==> a in g[e.block].attributes
  }

  predicate SomeHas(g: Graph, es: Ranges, a: Attribute)
    requires forall e :: e in es ==> e.block in g
  {
    exists e :: e in es && a in g[e.block].attributes
  }

  lemma {:induction false} OneMoreHas(g: Graph, es: Ranges, i: nat, a: Attribute)
    requires i < |es| && forall e :: e in es ==> e.block in g
    ensures AllHave(g, es[..i + 1], a) <==> AllHave(g, es[..i], a) && a in g[es[i].block].attributes
    ensures SomeHas(g, es[..i + 1], a) <==> SomeHas(g, es[..i], a) || a in g[es[i].block].attributes
  {
    assert es[..i + 1] == es[..i] + [es[i]];
    assert es[i] in es[..i + 1];
  }

  /** The attributes of the new block. */
  method MergedAttributesOf(g: Graph, es: Ranges) returns (attributes: set<Attribute>)
    requires forall e :: e in es ==> e.block in g
    ensures HoldsAttributes(g, es, attributes)
  {
    attributes := {};
    var uniform := {GAP_BLOCK, PADDING_BLOCK, BUILT_BY_SYZYGY};
    for i := 0 to |es|
      invariant forall a: Attribute :: a in attributes <==> !IsUniform(a) && SomeHas(g, es[..i], a)
      invariant forall a: Attribute :: a in uniform <==> IsUniform(a) && AllHave(g, es[..i], a)
    {
      var more := g[es[i].block].attributes;
      forall a: Attribute
        ensures AllHave(g, es[..i + 1], a) <==> AllHave(g, es[..i], a) && a in more
        ensures SomeHas(g, es[..i + 1], a) <==> SomeHas(g, es[..i], a) || a in more
      {
        OneMoreHas(g, es, i, a);
      }
      attributes := attributes + (more - {GAP_BLOCK, PADDING_BLOCK, BUILT_BY_SYZYGY});
      uniform := uniform * more;
    }
    attributes := attributes + uniform;
    assert es[..|es|] == es;
  }

  /** The bytes of the new block are those of the blocks at their addresses, zero in between. */
  ghost predicate HoldsBytes(g: Graph, es: Ranges, begin: int, size: nat, data: seq<uint8>)
    requires forall e :: e in es ==> e.block in g
  {
    |data| <= size && forall x :: 0 <= x < size ==>
      MergedByte(g, es, begin + x) == if x < |data| then data[x] else 0
  }

  lemma {:induction false} NoBytes(g: Graph, es: Ranges, a: int)
    requires forall e :: e in es ==> e.block in g && g[e.block].data == []
    ensures MergedByte(g, es, a) == 0
  {
    if es != [] {
      assert es[|es| - 1] in es;
      NoBytes(g, es[..|es| - 1], a);
    }
  }

  /** What merging blocks does to a graph and its addresses: every reference keeps its source, target and
      base address, kind and size; the blocks are gone; the new block lies where they lay and has their
      bytes and labels; other blocks change in the targets of references only. */
  ghost predicate Merged(f: Graph, before: map<BlockId, int>, g: Graph, after: map<BlockId, int>,
                         es: Ranges, begin: int, size: nat, into: BlockId)
    requires es != [] && forall e :: e in es ==> e.block in f
  {
    && into !in f && g.Keys == (f.Keys - BlocksOf(es)) + {into}
    && after == (before - BlocksOf(es))[into := begin]
    && SameReferences(f, before, g, after)
    && OthersKept(f, g, into)
    && NewBlockIs(f, g[into], es, begin, size)
  }

  /** From `begin` to `end` lie the given range and those of the blocks, and nothing else: each of the two is an
      end of one of them. */
  ghost predicate Spans(es: Ranges, start: int, size: nat, begin: int, end: int)
  {
    && begin < end && begin <= start && start + size <= end
    && (forall e :: e in es ==> begin <= e.start && e.start + e.size <= end)
    && (begin == start || exists e :: e in es && begin == e.start)
    && (end == start + size || exists e :: e in es && end == e.start + e.size)
  }

  /** The blocks that intersect a range, `es`, are merged into a block that spans them and the range. */
  ghost predicate MergedRange(f: Graph, before: map<BlockId, int>, g: Graph, after: map<BlockId, int>,
                              es: Ranges, start: int, size: nat, into: BlockId)
  {
    && es != [] && (forall e :: e in es ==> e.block in f) && into in g && into in after
    && Spans(es, start, size, after[into], after[into] + g[into].size)
    && Merged(f, before, g, after, es, after[into], g[into].size, into)
  }

  ghost predicate SameReferences(f: Graph, before: map<BlockId, int>, g: Graph, after: map<BlockId, int>)
  {
    forall l :: HasLocated(f, before, l) <==> HasLocated(g, after, l)
  }

  ghost predicate OthersKept(f: Graph, g: Graph, into: BlockId)
  {
    forall b :: b in g && b != into ==> b in f && g[b].(references := map[]) == f[b].(references := map[])
  }

  /** The new block is like the first of the blocks, with the bytes, attributes and labels of all of them. */
  ghost predicate NewBlockIs(f: Graph, b: Block, es: Ranges, begin: int, size: nat)
    requires es != [] && forall e :: e in es ==> e.block in f
  {
    && var first := f[es[0].block];
    && b.kind == first.kind && b.section == first.section && b.alignment == first.alignment && b.name == first.name
    && b.size == size && b.addr == begin
    && HoldsBytes(f, es, begin, size, b.data) && HoldsAttributes(f, es, b.attributes)
    && LabelsMerged(f, b.labels, es, begin, b.kind)
  }

  /** Every block has its bytes at its address in the new block. */
  lemma {:induction false} BytesStay(f: Graph, b: Block, es: Ranges, begin: int, size: nat, i: nat, k: nat)
    requires es != [] && Ordered(es)
    requires forall e :: e in es ==> e.block in f && |f[e.block].data| <= f[e.block].size == e.size
    requires NewBlockIs(f, b, es, begin, size) && i < |es| && k < es[i].size
    requires begin <= es[i].start && es[i].start + es[i].size <= begin + size
    ensures Contents(b)[es[i].start - begin + k] == Contents(f[es[i].block])[k]
  {
    hide LabelsMerged, HoldsAttributes, Contents, HoldsBytes;
    MergedByteAt(f, es, i, k);
    ByteHeld(f, b, es, begin, size, es[i].start - begin + k);
  }

  lemma {:induction false} ByteHeld(f: Graph, b: Block, es: Ranges, begin: int, size: nat, x: nat)
    requires (forall e :: e in es ==> e.block in f) && HoldsBytes(f, es, begin, size, b.data) && x < size == b.size
    ensures Contents(b)[x] == MergedByte(f, es, begin + x)
  {
    ContentsAt(b, x);
  }

  lemma {:induction false} ContentsAt(b: Block, x: nat)
    requires |b.data| <= b.size && x < b.size
    ensures |Contents(b)| == b.size && Contents(b)[x] == if x < |b.data| then b.data[x] else 0
  {
  }

  /** The data of the new block; none if no block has any. */
  method MergedDataOf(g: Graph, es: Ranges, begin: int, size: nat) returns (data: seq<uint8>)
    requires forall e :: e in es ==>
      e.block in g && begin <= e.start && e.start + |g[e.block].data| <= begin + size
    ensures HoldsBytes(g, es, begin, size, data)
  {
    var haveData;
    data, haveData := MergeData(g, es, begin, size);
    if !haveData {
      data := [];
      forall x: int ensures MergedByte(g, es, x) == 0 { NoBytes(g, es, x); }
    }
  }

  /** The ranges lie between `begin` and `begin + size`, and no other range does. */
  ghost predicate Covers(rs: Ranges, es: Ranges, begin: int, size: nat)
  {
    && (forall e :: e in es ==> e in rs && begin <= e.start && e.start + e.size <= begin + size)
    && (forall e :: e in rs && e !in es ==> !Intersects(e, begin, size))
  }

  lemma {:induction false} SliceOrdered(rs: Ranges, i: nat, j: nat)
    requires Ordered(rs) && i <= j <= |rs|
    ensures Ordered(rs[i..j]) && forall e :: e in rs[i..j] ==> e in rs
  {
  }

  lemma {:induction false} NotInSlice(rs: Ranges, i: nat, j: nat, k: nat)
    requires i <= j <= |rs| && k < |rs| && rs[k] !in rs[i..j]
    ensures !(i <= k < j)
  {
    assert forall m :: 0 <= m < j - i ==> rs[i..j][m] == rs[i + m];
  }

  lemma {:induction false} CoversOne(rs: Ranges, i: nat, j: nat, start: int, size: nat, e: Entry)
    requires Ordered(rs) && IntersectingRun(rs, i, j, start, size) && i < j && e in rs
    ensures var b, n := Begin(rs[i..j], start), End(rs[i..j], start, size);
      b < n && if e in rs[i..j] then b <= e.start && e.start + e.size <= n else !Intersects(e, b, n - b)
  {
    var es := rs[i..j];
    Covered(rs, i, j, start, size, i);
    if e in es {
      var k :| 0 <= k < |es| && es[k] == e;
      Covered(rs, i, j, start, size, i + k);
    } else {
      var k :| 0 <= k < |rs| && rs[k] == e;
      NotInSlice(rs, i, j, k);
      RoomForMerged(rs, i, j, start, size, k);
    }
  }

  /** The ranges from position `i` on that intersect the given one. */
  ghost predicate IsRun(rs: Ranges, es: Ranges, i: nat, start: int, size: nat)
  {
    IntersectingRun(rs, i, i + |es|, start, size) && es == rs[i..i + |es|]
  }

  lemma {:induction false} RunOrdered(rs: Ranges, es: Ranges, i: nat, start: int, size: nat)
    requires Ordered(rs) && IsRun(rs, es, i, start, size) && es != []
    ensures Begin(es, start) < End(es, start, size) && Ordered(es) && forall e :: e in es ==> e in rs
  {
    SliceOrdered(rs, i, i + |es|);
    Covered(rs, i, i + |es|, start, size, i);
  }

  lemma {:induction false} RunCovers(rs: Ranges, es: Ranges, i: nat, start: int, size: nat, n: nat)
    requires Ordered(rs) && IsRun(rs, es, i, start, size) && es != []
    requires n == End(es, start, size) - Begin(es, start)
    ensures Covers(rs, es, Begin(es, start), n)
  {
    RunOrdered(rs, es, i, start, size);
    forall e | e in rs
      ensures if e in es then Begin(es, start) <= e.start && e.start + e.size <= Begin(es, start) + n
              else !Intersects(e, Begin(es, start), n)
    {
      CoversOne(rs, i, i + |es|, start, size, e);
    }
  }

  /** The blocks can be moved into the block that has been made for them. */
  lemma {:induction false} CanMoveOne(g: Graph, h: Graph, before: map<BlockId, int>, begin: int, size: nat,
                                      into: BlockId, es: Ranges, e: Entry, data: seq<uint8>,
                                      attributes: set<Attribute>)
    requires Closed(g) && es != [] && e in es && Mergeable(g, es) && into !in g
    requires e.block in before && before[e.block] == e.start && g[e.block].size == e.size
    requires begin <= e.start && e.start + e.size <= begin + size
    requires h == g[into := MergedBlock(g, es, begin, size, data, attributes)]
    ensures CanMove(Strip(h), before, begin, into, e)
  {
    StripAt(h, e.block);
    StripAt(h, into);
    forall c: BlockId, o: int | Refers(Strip(h), c, o, e.block)
      ensures g[e.block].kind == CodeBlock ==> 0 <= Strip(h)[c].references[o].offset + (e.start - begin) <= size
    {
      StripAt(h, c);
      assert Refers(g, c, o, e.block);
    }
  }

  /** A new block without references changes no located reference. */
  lemma {:induction false} NewBlockLocates(f: Graph, f': Graph, into: BlockId, before: map<BlockId, int>,
                                           l: LocatedReference)
    requires into !in f && f'.Keys == f.Keys + {into} && f'[into].references == map[]
    requires forall b :: b in f ==> f'[b] == f[b]
    ensures HasLocated(f, before, l) <==> HasLocated(f', before, l)
  {
    if HasLocated(f, before, l) {
      var b: BlockId, o: int :| b in f && o in f[b].references &&
        LocateReference(before, b, o, f[b].references[o]) == l;
      assert b in f' && o in f'[b].references;
    }
    if HasLocated(f', before, l) {
      var b: BlockId, o: int :| b in f' && o in f'[b].references &&
        LocateReference(before, b, o, f'[b].references[o]) == l;
      assert b in f && o in f[b].references;
    }
  }

  lemma {:induction false} MovedAddresses(f: Graph, before: map<BlockId, int>, after: map<BlockId, int>,
                                          moved: Placement, begin: int, into: BlockId)
    requires MovedFrom(f, before, moved, begin) && into !in before && into !in moved
    requires after == (before - moved.Keys)[into := begin]
    ensures SameAddresses(before, after, moved, into)
  {
  }

  lemma {:induction false} SameBytes(g: Graph, es: Ranges, a: int)
    requires forall e :: e in es ==> e.block in g
    ensures MergedByte(Strip(g), es, a) == MergedByte(g, es, a)
  {
    if es != [] {
      assert es[|es| - 1] in es;
      StripAt(g, es[|es| - 1].block);
      SameBytes(g, es[..|es| - 1], a);
    }
  }

  lemma {:induction false} SameAttributes(g: Graph, es: Ranges, attributes: set<Attribute>)
    requires (forall e :: e in es ==> e.block in g) && HoldsAttributes(g, es, attributes)
    ensures HoldsAttributes(Strip(g), es, attributes)
  {
    var f := Strip(g);
    forall e | e in es ensures f[e.block].attributes == g[e.block].attributes { StripAt(g, e.block); }
    forall a: Attribute
      ensures a in attributes <==> if IsUniform(a) then AllHave(f, es, a) else SomeHas(f, es, a)
    {
      assert AllHave(f, es, a) <==> AllHave(g, es, a);
      assert SomeHas(f, es, a) <==> SomeHas(g, es, a);
    }
  }

  lemma {:induction false} RunSpans(rs: Ranges, es: Ranges, i: nat, start: int, size: nat)
    requires Ordered(rs) && IsRun(rs, es, i, start, size) && es != []
    ensures Spans(es, start, size, Begin(es, start), End(es, start, size))
  {
    RunOrdered(rs, es, i, start, size);
    RunCovers(rs, es, i, start, size, End(es, start, size) - Begin(es, start));
    assert es[0] in es && es[|es| - 1] in es;
  }

  /** A merge that covers a range and the blocks that intersect it. */
  lemma {:induction false} CoveredIsRange(f: Graph, before: map<BlockId, int>, g: Graph, after: map<BlockId, int>,
                                          es: Ranges, start: int, size: nat, length: nat, into: BlockId)
    requires es != [] && (forall e :: e in es ==> e.block in f) && Begin(es, start) < End(es, start, size)
    requires length == End(es, start, size) - Begin(es, start)
    requires Merged(f, before, g, after, es, Begin(es, start), length, into)
    requires Spans(es, start, size, Begin(es, start), End(es, start, size))
    ensures MergedRange(f, before, g, after, es, start, size, into)
  {
  }

  /** The references keep their addresses over a whole merge. */
  lemma {:induction false} MergeKeepsAddresses(f: Graph, f': Graph, k: Graph, before: map<BlockId, int>,
                                               after: map<BlockId, int>, moved: Placement, begin: int, into: BlockId,
                                               origin: map<int, BlockId>)
    requires Closed(f) && into !in f && into !in before && f'.Keys == f.Keys + {into} && f'[into].references == map[]
    requires forall b :: b in f ==> f'[b] == f[b]
    requires Relocated(f', k, moved, into, origin) && MovedFrom(f', before, moved, begin)
    requires after == (before - moved.Keys)[into := begin]
    ensures SameReferences(f, before, k, after)
  {
    MovedAddresses(f', before, after, moved, begin, into);
    forall b, o | b in f' && o in f'[b].references ensures f'[b].references[o].referenced != into {
      assert b in f && f[b].references[o].referenced in f;
    }
    RelocationKeepsAddresses(f', k, moved, into, origin, before, after);
    forall l ensures HasLocated(f, before, l) <==> HasLocated(k, after, l) {
      NewBlockLocates(f, f', into, before, l);
    }
  }

  /** Other blocks change in the targets of their references only. */
  lemma {:induction false} OthersKeepRest(f: Graph, f': Graph, k: Graph, moved: Placement, into: BlockId)
    requires into !in f && f'.Keys == f.Keys + {into} && (forall b :: b in f ==> f'[b] == f[b])
    requires OthersRelocated(f', k, moved, into)
    ensures OthersKept(f, k, into)
  {
  }

  lemma {:induction false} SameLabel(f: Graph, f': Graph, es: Ranges, begin: int, kind: BlockType, x: int)
    requires forall e :: e in es ==> e.block in f
    requires forall b :: b in f ==> b in f' && f'[b] == f[b]
    ensures MergedLabel(f, es, begin, kind, x) == MergedLabel(f', es, begin, kind, x)
  {
    if es != [] {
      assert es[|es| - 1] in es;
      SameLabel(f, f', es[..|es| - 1], begin, kind, x);
    }
  }

  lemma {:induction false} MergeEnds(f: Graph, f': Graph, k: Graph, before: map<BlockId, int>, after: map<BlockId, int>,
                  moved: Placement, begin: int, size: nat, into: BlockId, origin: map<int, BlockId>, es: Ranges)
    requires Closed(f) && into !in f && into !in before && f'.Keys == f.Keys + {into} && f'[into].references == map[]
    requires forall b :: b in f ==> f'[b] == f[b]
    requires es != [] && forall e :: e in es ==> e.block in f && e.block in before && before[e.block] == e.start
    requires Rest(f'[into]) == MergedBlock(f, es, begin, size, f'[into].data, f'[into].attributes)
    requires HoldsBytes(f, es, begin, size, f'[into].data) && HoldsAttributes(f, es, f'[into].attributes)
    requires MergeState(f', k, moved, into, origin) && MovedFrom(f', before, moved, begin)
    requires moved.Keys == BlocksOf(es) && after == (before - moved.Keys)[into := begin]
    requires LabelsMerged(f', k[into].labels, es, begin, f'[into].kind)
    ensures Merged(f, before, k, after, es, begin, size, into)
  {
    MergeKeepsAddresses(f, f', k, before, after, moved, begin, into, origin);
    OthersKeepRest(f, f', k, moved, into);
    forall x ensures MergedLabel(f, es, begin, f'[into].kind, x) == MergedLabel(f', es, begin, f'[into].kind, x) {
      SameLabel(f, f', es, begin, f'[into].kind, x);
    }
  }
}
