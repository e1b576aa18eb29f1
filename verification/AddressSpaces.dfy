/** An address space over a block graph: where the blocks lie. */
module AddressSpaces {
  import opened Types
  import opened GraphSpecs
  import opened OrderedMaps
  import opened BlockGraphs
  import opened AddressRanges
  import opened Merging
  import opened MergeSteps

  /** The range is that of a block of the address space. */
  predicate IsRangeOf(g: Graph, addresses: map<BlockId, int>, e: Entry)
  {
    e.block in addresses && e.block in g && e == Entry(addresses[e.block], g[e.block].size, e.block)
  }

  /** Ranges and addresses agree: the ranges are exactly those of the blocks of non-zero size; empty
      blocks have an address only. */
  ghost predicate Agrees(g: Graph, rs: Ranges, addresses: map<BlockId, int>)
  {
    && (forall b :: b in addresses ==> b in g)
    && (forall e :: e in rs ==> IsRangeOf(g, addresses, e))
    && (forall b :: b in addresses && g[b].size > 0 ==> Entry(addresses[b], g[b].size, b) in rs)
  }

  lemma {:induction false} AgreesWithMore(g: Graph, rs: Ranges, addresses: map<BlockId, int>, h: Graph, ss: Ranges,
                                          b: BlockId, a: int)
    requires Agrees(g, rs, addresses) && b !in addresses && b in h && g.Keys <= h.Keys
    requires forall c :: c in addresses ==> h[c].size == g[c].size
    requires forall e :: e in ss <==> e in rs || (h[b].size > 0 && e == Entry(a, h[b].size, b))
    ensures Agrees(h, ss, addresses[b := a])
  {
    forall e | e in ss ensures IsRangeOf(h, addresses[b := a], e) {
      if e in rs { assert IsRangeOf(g, addresses, e); }
    }
  }

  /** The position of a block's range. */
  function {:induction false} PositionOf(rs: Ranges, e: Entry): (i: nat)
    requires e in rs
    ensures i < |rs| && rs[i] == e
  {
    if rs[0] == e then 0 else 1 + PositionOf(rs[1..], e)
  }

  /** Without its own range, a block can take up all the space before the next one. */
  lemma {:induction false} FreeUpToNext(rs: Ranges, i: nat, size: nat)
    requires Ordered(rs) && i < |rs|
    ensures IsFree(Removed(rs, i), rs[i].start, size) <==> i + 1 == |rs| || rs[i].start + size <= rs[i + 1].start
  {
    var ss := Removed(rs, i);
    forall j | 0 <= j < |ss| ensures ss[j] == if j < i then rs[j] else rs[j + 1] {}
    if i + 1 < |rs| {
      assert ss[i] == rs[i + 1];
    }
  }

  /** The ranges `ss` are `rs` with the range of a block replaced by one of another size; `free` says
      whether there was room for it. */
  ghost predicate RangeReplaced(rs: Ranges, ss: Ranges, e: Entry, size: nat, free: bool)
  {
    forall x :: x in ss <==> (x in rs && x != e) || (size > 0 && free && x == e.(size := size))
  }

  /** Agreement after a block has been resized: exactly if there was room for the new range. */
  lemma {:induction false} ResizedAgrees(g: Graph, rs: Ranges, ss: Ranges, addresses: map<BlockId, int>, b: BlockId,
                                         size: nat, free: bool)
    requires Agrees(g, rs, addresses) && b in addresses && size != g[b].size
    requires RangeReplaced(rs, ss, Entry(addresses[b], g[b].size, b), size, free)
    ensures Agrees(g[b := g[b].(size := size)], ss, addresses) <==> free || size == 0
  {
    var h, e := g[b := g[b].(size := size)], Entry(addresses[b], size, b);
    assert e !in rs by { assert !IsRangeOf(g, addresses, e); }
    if free || size == 0 {
      forall x | x in ss ensures IsRangeOf(h, addresses, x) {
        if x in rs { assert IsRangeOf(g, addresses, x); }
      }
    } else {
      assert e !in ss && h[b].size > 0;
    }
  }

  lemma {:induction false} NotReleased(es: Ranges, i: nat)
    requires Ordered(es) && i < |es|
    ensures es[i] !in es[..i]
  {
  }

  lemma {:induction false} OneMoreReleased(es: Ranges, i: nat, addresses: map<BlockId, int>)
    requires i < |es|
    ensures es[..i + 1] == es[..i] + [es[i]]
    ensures addresses - BlocksOf(es[..i + 1]) == (addresses - BlocksOf(es[..i])) - {es[i].block}
  {
    assert es[..i + 1] == es[..i] + [es[i]];
    assert BlocksOf(es[..i + 1]) == BlocksOf(es[..i]) + {es[i].block};
  }

  lemma {:induction false} AgreesWithout(g: Graph, rs: Ranges, addresses: map<BlockId, int>, ss: Ranges, e: Entry)
    requires Agrees(g, rs, addresses) && e in rs && forall x :: x in ss <==> x in rs && x != e
    ensures Agrees(g, ss, addresses - {e.block})
  {
    forall x | x in ss ensures IsRangeOf(g, addresses - {e.block}, x) {
      assert IsRangeOf(g, addresses, x) && IsRangeOf(g, addresses, e);
    }
  }

  lemma {:induction false} SameSizes(g: Graph, h: Graph, rs: Ranges, addresses: map<BlockId, int>)
    requires Agrees(g, rs, addresses) && forall b :: b in addresses ==> b in h && h[b].size == g[b].size
    ensures Agrees(h, rs, addresses)
  {
    forall e | e in rs ensures IsRangeOf(h, addresses, e) { assert IsRangeOf(g, addresses, e); }
  }

  lemma {:induction false} DataFits(g: Graph, rs: Ranges, addresses: map<BlockId, int>, es: Ranges, begin: int,
                                    size: nat)
    requires Agrees(g, rs, addresses) && Covers(rs, es, begin, size) && Mergeable(g, es)
    ensures forall e :: e in es ==> e.block in g && begin <= e.start && e.start + |g[e.block].data| <= begin + size
  {
    forall e | e in es ensures e.block in g && begin <= e.start && e.start + |g[e.block].data| <= begin + size {
      assert IsRangeOf(g, addresses, e);
    }
  }

  lemma {:induction false} CanMoveMerged(g: Graph, h: Graph, rs: Ranges, before: map<BlockId, int>, begin: int,
                                         size: nat, into: BlockId, es: Ranges, data: seq<uint8>,
                                         attributes: set<Attribute>)
    requires Closed(g) && Agrees(g, rs, before) && Ordered(es) && es != [] && Covers(rs, es, begin, size)
    requires Mergeable(g, es) && into !in g && es[0].block in g
    requires h == g[into := MergedBlock(g, es, begin, size, data, attributes)]
    ensures CanMoveAll(Strip(h), before, begin, into, es)
  {
    forall e | e in es ensures CanMove(Strip(h), before, begin, into, e) {
      assert IsRangeOf(g, before, e);
      CanMoveOne(g, h, before, begin, size, into, es, e, data, attributes);
    }
  }

  lemma {:induction false} NewBlockStrips(g: Graph, h: Graph, into: BlockId)
    requires into !in g && into in h && h == g[into := h[into]] && Closed(g)
    ensures Strip(h).Keys == Strip(g).Keys + {into} && forall b :: b in Strip(g) ==> Strip(h)[b] == Strip(g)[b]
    ensures Strip(h)[into] == h[into].(referrers := {}) && Closed(Strip(g))
  {
    forall b, o | b in Strip(g) && o in Strip(g)[b].references
      ensures Strip(g)[b].references[o].referenced in Strip(g)
    {
      StripAt(g, b);
    }
  }

  lemma {:induction false} SameMergedBlock(g: Graph, es: Ranges, begin: int, size: nat, data: seq<uint8>,
                                           attributes: set<Attribute>)
    requires es != [] && (forall e :: e in es ==> e.block in g) && HoldsBytes(g, es, begin, size, data)
    requires HoldsAttributes(g, es, attributes)
    ensures es[0] in es
    ensures MergedBlock(Strip(g), es, begin, size, data, attributes) ==
      MergedBlock(g, es, begin, size, data, attributes)
    ensures HoldsBytes(Strip(g), es, begin, size, data) && HoldsAttributes(Strip(g), es, attributes)
  {
    assert es[0] in es;
    SameAttributes(g, es, attributes);
    forall x: int ensures MergedByte(Strip(g), es, x) == MergedByte(g, es, x) { SameBytes(g, es, x); }
  }

  lemma {:induction false} RangesLie(g: Graph, rs: Ranges, before: map<BlockId, int>, es: Ranges)
    requires Agrees(g, rs, before) && forall e :: e in es ==> e in rs
    ensures forall e :: e in es ==> e.block in g && e.block in before && before[e.block] == e.start
  {
    forall e | e in es ensures e.block in g && e.block in before && before[e.block] == e.start {
      assert IsRangeOf(g, before, e);
    }
  }

  /** Merging keeps ranges and addresses in agreement. */
  lemma {:induction false} MergeAgrees(g: Graph, h: Graph, k: Graph, rs: Ranges, before: map<BlockId, int>,
                                       after: map<BlockId, int>, moved: Placement, begin: int, into: BlockId,
                                       origin: map<int, BlockId>, es: Ranges)
    requires Agrees(h, rs, after) && MergeState(Strip(h), Strip(k), moved, into, origin)
    requires MovedSoFar(Strip(h), before, moved, begin, es, |es|)
    requires after == (before - BlocksOf(es))[into := begin]
    ensures Agrees(k, rs, after)
  {
    assert es[..|es|] == es;
    forall b | b in after ensures b in k && k[b].size == h[b].size {
      assert b in h && b !in moved;
      assert b in Strip(k) && k.Keys == Strip(k).Keys;
      StripAt(h, b);
      StripAt(k, b);
    }
    SameSizes(h, k, rs, after);
  }


  lemma {:induction false} NotPlaced(g: Graph, rs: Ranges, addresses: map<BlockId, int>, b: BlockId)
    requires Agrees(g, rs, addresses) && b !in g
    ensures b !in addresses
  {
  }

  /** All blocks have been moved. */
  lemma {:induction false} MergeDone(g: Graph, h: Graph, k: Graph, rs: Ranges, rs': Ranges, before: map<BlockId, int>,
                                     after: map<BlockId, int>, begin: int, size: nat, into: BlockId, es: Ranges,
                                     moved: Placement, origin: map<int, BlockId>)
    requires Closed(g) && Agrees(g, rs, before) && es != [] && (forall e :: e in es ==> e in rs && e.block in g)
    requires into !in g && into in h && into in k && es[0].block in g
    requires h == g[into := MergedBlock(g, es, begin, size, h[into].data, h[into].attributes)]
    requires HoldsBytes(g, es, begin, size, h[into].data) && HoldsAttributes(g, es, h[into].attributes)
    requires after == (before - BlocksOf(es))[into := begin] && Agrees(h, rs', after)
    requires MergeState(Strip(h), Strip(k), moved, into, origin)
    requires MovedSoFar(Strip(h), before, moved, begin, es, |es|)
    requires (forall e :: e in es ==> e.block in Strip(h))
    requires LabelsMerged(Strip(h), k[into].labels, es, begin, h[into].kind)
    ensures forall e :: e in es ==> e.block in Strip(g)
    ensures Merged(Strip(g), before, Strip(k), after, es, begin, size, into) && Agrees(k, rs', after)
  {
    hide Agrees, HoldsBytes, HoldsAttributes, MergeState, LabelsMerged, Strip, Merged;
    RangesLie(g, rs, before, es);
    NotPlaced(g, rs, before, into);
    NewBlockStrips(g, h, into);
    StripAt(k, into);
    SameMergedBlock(g, es, begin, size, h[into].data, h[into].attributes);
    assert es[..|es|] == es;
    MergeEnds(Strip(g), Strip(h), Strip(k), before, after, moved, begin, size, into, origin, es);
    MergeAgrees(g, h, k, rs', before, after, moved, begin, into, origin, es);
  }

  class AddressSpace {
    const graph: BlockGraph
    var ranges: Ranges
    var blockAddresses: map<BlockId, int>

    ghost predicate Valid()
      reads this, graph
    {
      graph.Valid() && Ordered(ranges) && Agrees(graph.blocks, ranges, blockAddresses)
    }

    constructor (graph: BlockGraph)
      requires graph.Valid()
      ensures Valid() && this.graph == graph && ranges == [] && blockAddresses == map[]
    {
      this.graph := graph;
      ranges := [];
      blockAddresses := map[];
    }

    /** Inserts a range unless it intersects another one. */
    method InsertRange(e: Entry) returns (inserted: bool)
      requires Ordered(ranges) && e.size > 0
      modifies this
      ensures Ordered(ranges) && blockAddresses == old(blockAddresses)
      ensures inserted <==> IsFree(old(ranges), e.start, e.size)
      ensures forall x :: x in ranges <==> x in old(ranges) || (inserted && x == e)
    {
      if FirstIntersection(ranges, e.start, e.size) < |ranges| {
        return false;
      }
      InsertKeepsOrder(ranges, e);
      ranges := Inserted(ranges, e);
      return true;
    }

    /** Gives a block an address, and a range if it is not empty. */
    method InsertBlock(addr: int, block: BlockId) returns (inserted: bool)
      requires Valid() && block in graph.blocks && block !in blockAddresses
      modifies this, graph
      ensures Valid() && graph.nextBlockId == old(graph.nextBlockId)
      ensures inserted <==>
        (old(graph.blocks)[block].size == 0 || IsFree(old(ranges), addr, old(graph.blocks)[block].size))
      ensures !inserted ==> graph.blocks == old(graph.blocks) && blockAddresses == old(blockAddresses)
      ensures inserted ==> blockAddresses == old(blockAddresses)[block := addr]
      ensures inserted ==> graph.blocks == old(graph.blocks)[block := old(graph.blocks)[block].(addr := addr)]
    {
      ghost var g, rs, addresses := graph.blocks, ranges, blockAddresses;
      var size := graph.blocks[block].size;
      if size > 0 {
        inserted := InsertRange(Entry(addr, size, block));
        if !inserted {
          assert forall x :: x in ranges <==> x in rs;
          return;
        }
      }
      blockAddresses := blockAddresses[block := addr];
      graph.blocks := graph.blocks[block := graph.blocks[block].(addr := addr)];
      AgreesWithMore(g, rs, addresses, graph.blocks, ranges, block, addr);
      SameLinks(g, graph.blocks);
      return true;
    }

    /** Makes a block at an address, unless its range intersects another one. */
    method AddBlock(kind: BlockType, addr: int, size: nat, name: string) returns (block: Option<BlockId>)
      requires Valid()
      modifies this, graph
      ensures Valid()
      ensures block.None? <==> size > 0 && !IsFree(old(ranges), addr, size)
      ensures block.None? ==> graph.blocks == old(graph.blocks) && blockAddresses == old(blockAddresses)
      ensures block.Some? ==>
        block.value !in old(graph.blocks) && blockAddresses == old(blockAddresses)[block.value := addr]
      ensures block.Some? ==> graph.blocks == old(graph.blocks)[block.value :=
        Block(kind, size, 1, addr, -1, {}, name, "", map[], [], map[], {})]
    {
      if size > 0 {
        if FirstIntersection(ranges, addr, size) < |ranges| {
          return None;
        }
      }
      var id := graph.AddBlock(kind, size, name);
      var inserted := InsertBlock(addr, id);
      return Some(id);
    }

    /** Takes a range out. */
    method RemoveRange(e: Entry)
      requires Ordered(ranges) && e in ranges
      modifies this
      ensures Ordered(ranges) && blockAddresses == old(blockAddresses)
      ensures ranges == Removed(old(ranges), PositionOf(old(ranges), e))
      ensures forall x :: x in ranges <==> x in old(ranges) && x != e
    {
      RemoveKeepsOrder(ranges, PositionOf(ranges, e));
      ranges := Removed(ranges, PositionOf(ranges, e));
    }

    /** Takes the range of a block out of the address space, unless the block cannot grow to `size`. */
    method ReleaseRange(e: Entry, size: nat) returns (ok: bool)
      requires Ordered(ranges) && e in ranges
      modifies this
      ensures Ordered(ranges) && blockAddresses == old(blockAddresses)
      ensures ok <==> IsFree(Removed(old(ranges), PositionOf(old(ranges), e)), e.start, size)
      ensures ranges == if ok then Removed(old(ranges), PositionOf(old(ranges), e)) else old(ranges)
      ensures forall x :: x in ranges <==> x in old(ranges) && !(ok && x == e)
    {
      var i := PositionOf(ranges, e);
      FreeUpToNext(ranges, i, size);
      if e.size < size {
        if i + 1 < |ranges| && e.start + size > ranges[i + 1].start {
          return false;
        }
      }
      RemoveRange(e);
      return true;
    }

    /** Replaces a range by one of another size; an empty block has no range to be replaced. */
    method ReplaceRange(e: Entry, size: nat) returns (ok: bool)
      requires Ordered(ranges) && (e.size > 0 <==> e in ranges)
      modifies this
      ensures Ordered(ranges) && blockAddresses == old(blockAddresses)
      ensures ok <==> e.size == 0 || IsFree(Removed(old(ranges), PositionOf(old(ranges), e)), e.start, size)
      ensures ok ==> RangeReplaced(old(ranges), ranges, e, size, e.size > 0 || IsFree(old(ranges), e.start, size))
      ensures !ok ==> ranges == old(ranges)
    {
      if e.size > 0 {
        ok := ReleaseRange(e, size);
        if !ok {
          return;
        }
      }
      if size > 0 {
        var inserted := InsertRange(e.(size := size));
      }
      ok := true;
    }

    /** Changes the size of a block at its address. Refuses if the block is not in the address space or
        cannot grow that far. The address space stays consistent except that an empty block can be made
        to overlap others, because a failed insertion goes unnoticed. */
    method ResizeBlock(block: BlockId, size: nat) returns (ok: bool)
      requires Valid()
      modifies this, graph
      ensures blockAddresses == old(blockAddresses) && graph.Valid() && Ordered(ranges)
      ensures ok <==>
        && block in old(blockAddresses)
        && var e := Entry(old(blockAddresses)[block], old(graph.blocks)[block].size, block);
          size == e.size || e.size == 0 || IsFree(Removed(old(ranges), PositionOf(old(ranges), e)), e.start, size)
      ensures !ok ==> Valid() && graph.blocks == old(graph.blocks)
      ensures ok ==> graph.blocks == old(graph.blocks)[block := old(graph.blocks)[block].(size := size)]
      ensures ok ==> (Valid() <==>
        old(graph.blocks)[block].size > 0 || size == 0 || IsFree(old(ranges), old(blockAddresses)[block], size))
    {
      if block !in blockAddresses {
        return false;
      }
      ghost var g, rs := graph.blocks, ranges;
      var e := Entry(blockAddresses[block], graph.blocks[block].size, block);
      if e.size == size {
        return true;
      }
      assert e in ranges ==> IsRangeOf(g, blockAddresses, e);
      ok := ReplaceRange(e, size);
      if !ok {
        return;
      }
      graph.blocks := graph.blocks[block := graph.blocks[block].(size := size)];
      SameLinks(g, graph.blocks);
      ResizedAgrees(g, rs, ranges, blockAddresses, block, size, e.size > 0 || IsFree(rs, e.start, size));
    }

    /** The ranges that intersect the given one. */
    method IntersectingBlocks(start: int, size: nat) returns (es: Ranges, ghost first: nat)
      requires Ordered(ranges)
      ensures IsRun(ranges, es, first, start, size)
    {
      var i := FirstIntersection(ranges, start, size);
      first := i;
      es := [];
      while i < |ranges| && Intersects(ranges[i], start, size)
        invariant first <= i <= |ranges| && es == ranges[first..i]
        invariant forall k :: first <= k < i ==> Intersects(ranges[k], start, size)
      {
        es := es + [ranges[i]];
        i := i + 1;
      }
    }

    /** Takes blocks out of the address space. */
    method ReleaseBlocks(es: Ranges)
      requires Valid() && Ordered(es) && forall e :: e in es ==> e in ranges
      modifies this
      ensures Valid()
      ensures forall e :: e in ranges <==> e in old(ranges) && e !in es
      ensures blockAddresses == old(blockAddresses) - BlocksOf(es)
    {
      for i := 0 to |es|
        invariant Valid()
        invariant forall e :: e in ranges <==> e in old(ranges) && e !in es[..i]
        invariant blockAddresses == old(blockAddresses) - BlocksOf(es[..i])
      {
        var e := es[i];
        assert e in es;
        NotReleased(es, i);
        ghost var rs, addresses := ranges, blockAddresses;
        RemoveRange(e);
        blockAddresses := blockAddresses - {e.block};
        AgreesWithout(graph.blocks, rs, addresses, ranges, e);
        OneMoreReleased(es, i, old(blockAddresses));
      }
      assert es[..|es|] == es;
    }

    /** Sets a label unless there is one at the offset. */
    method SetLabel(b: BlockId, offset: int, l: Label)
      requires graph.Valid() && b in graph.blocks
      modifies graph
      ensures graph.Valid() && graph.nextBlockId == old(graph.nextBlockId)
      ensures var was := old(graph.blocks)[b].labels;
        graph.blocks == old(graph.blocks)[b := old(graph.blocks)[b].(labels := AddedLabel(was, offset, l))]
    {
      ghost var g := graph.blocks;
      var labels := graph.blocks[b].labels;
      if offset !in labels {
        graph.blocks := graph.blocks[b := graph.blocks[b].(labels := labels[offset := l])];
      }
      SameLinks(g, graph.blocks);
    }

    /** Adds the labels of block `b`, and its name if it is not code, to block `into`. */
    method CopyLabels(b: BlockId, d: int, into: BlockId) returns (ghost labels: map<int, Label>)
      requires graph.Valid() && b in graph.blocks && into in graph.blocks && b != into
      modifies graph
      ensures graph.Valid() && graph.nextBlockId == old(graph.nextBlockId)
      ensures graph.blocks == old(graph.blocks)[into := old(graph.blocks)[into].(labels := labels)]
      ensures LabelsAdded(old(graph.blocks)[into].labels, labels, old(graph.blocks)[b].labels,
                          NameLabel(old(graph.blocks)[b], old(graph.blocks)[into].kind), d)
    {
      ghost var g, was := graph.blocks, graph.blocks[into].labels;
      var more := graph.blocks[b].labels;
      var name := NameLabel(graph.blocks[b], graph.blocks[into].kind);
      NameAdded(was, name, d);
      if name.Some? {
        SetLabel(into, d, name.value);
      }
      labels := graph.blocks[into].labels;
      var todo := more.Keys;
      ghost var done := map[];
      while todo != {}
        invariant graph.Valid() && graph.nextBlockId == old(graph.nextBlockId)
        invariant graph.blocks == g[into := g[into].(labels := labels)]
        invariant todo <= more.Keys && done == more - todo && LabelsAdded(was, labels, done, name, d)
        decreases |todo|
      {
        var k := Pick(todo);
        SetLabel(into, d + k, more[k]);
        LabelAdded(was, labels, done, name, d, k, more[k]);
        labels, done, todo := AddedLabel(labels, d + k, more[k]), done[k := more[k]], todo - {k};
      }
      assert done == more;
    }

    /** Moves one of the blocks that are merged. */
    method MoveBlock(b: BlockId, d: int, into: BlockId, ghost f: Graph, ghost moved: Placement,
                     ghost origin: map<int, BlockId>)
      requires graph.Valid() && b in graph.blocks && into in graph.blocks && b != into && b in f
      requires MergeState(f, Strip(graph.blocks), moved, into, origin)
      requires MoveFits(graph.blocks, b, d, into) && LandsFree(f, origin, b, d)
      requires graph.blocks[b].labels == f[b].labels && graph.blocks[b].name == f[b].name
      modifies graph
      ensures graph.Valid() && graph.nextBlockId == old(graph.nextBlockId)
      ensures MergeState(f, Strip(graph.blocks), moved[b := d], into, NewOrigin(f, origin, b, d))
      ensures into in graph.blocks && into in f
      ensures LabelsAdded(old(graph.blocks)[into].labels, graph.blocks[into].labels, f[b].labels,
                          NameLabel(f[b], f[into].kind), d)
    {
      ghost var g := graph.blocks;
      var labels := CopyLabels(b, d, into);
      ghost var h := graph.blocks;
      StripLabels(g, into, labels);
      MergeLabels(f, Strip(g), Strip(h), moved, into, origin, labels);
      StillFitsLabelled(g, into, labels, b, d);
      graph.MoveBlockInto(b, d, into);
      MergeMoves(f, Strip(h), Strip(graph.blocks), moved, into, origin, NewOrigin(f, origin, b, d), b, d);
    }

    /** Moves labels and references of the blocks to the new block, and removes them. */
    method MoveBlocks(es: Ranges, begin: int, into: BlockId, ghost before: map<BlockId, int>)
      returns (ghost moved: Placement, ghost origin: map<int, BlockId>)
      requires graph.Valid() && into in graph.blocks && graph.blocks[into].references == map[]
      requires CanMoveAll(Strip(graph.blocks), before, begin, into, es) && graph.blocks[into].labels == map[]
      modifies graph
      ensures graph.Valid()
      ensures MergeState(Strip(old(graph.blocks)), Strip(graph.blocks), moved, into, origin)
      ensures MovedSoFar(Strip(old(graph.blocks)), before, moved, begin, es, |es|)
      ensures into in graph.blocks && forall e :: e in es ==> e.block in Strip(old(graph.blocks))
      ensures LabelsMerged(Strip(old(graph.blocks)), graph.blocks[into].labels, es, begin, old(graph.blocks)[into].kind)
    {
      ghost var f := Strip(graph.blocks);
      moved, origin := map[], map[];
      MergeBegins(f, into);
      assert MovedSoFar(f, before, moved, begin, es, 0);
      ghost var kind := f[into].kind;
      MovableExist(f, before, begin, into, es);
      assert LabelsMerged(f, map[], es[..0], begin, kind);
      hide MergeState, MovedSoFar, CanMoveAll, Strip, NewOrigin, Mirrored, WellSized, LabelsMerged, LabelsAdded;
      for i := 0 to |es|
        invariant graph.Valid() && into in graph.blocks
        invariant LabelsMerged(f, graph.blocks[into].labels, es[..i], begin, kind)
        invariant MergeState(f, Strip(graph.blocks), moved, into, origin)
        invariant MovedSoFar(f, before, moved, begin, es, i)
      {
        var b, d := es[i].block, es[i].start - begin;
        MergeNext(f, graph.blocks, before, moved, begin, into, origin, es, i);
        ghost var was := graph.blocks[into].labels;
        MoveBlock(b, d, into, f, moved, origin);
        OneMoreLabelled(f, was, graph.blocks[into].labels, es, i, begin, kind);
        moved, origin := moved[b := d], NewOrigin(f, origin, b, d);
      }
      assert es[..|es|] == es;
    }

    /** Makes a block with all its properties. */
    method CreateBlock(b: Block, begin: int) returns (into: BlockId)
      requires Valid() && IsFree(ranges, begin, b.size)
      modifies this, graph
      ensures Valid() && into !in old(graph.blocks) && blockAddresses == old(blockAddresses)[into := begin]
      ensures graph.blocks == old(graph.blocks)[into := Block(b.kind, b.size, b.alignment, begin, b.section,
                                                              b.attributes, b.name, "", map[], b.data, map[], {})]
    {
      var added := AddBlock(b.kind, begin, b.size, b.name);
      into := added.value;
      ghost var h := graph.blocks;
      graph.blocks := graph.blocks[into := graph.blocks[into].(
        section := b.section, alignment := b.alignment, attributes := b.attributes, data := b.data)];
      SameLinks(h, graph.blocks);
      SameSizes(h, graph.blocks, ranges, blockAddresses);
    }

    /** Replaces the blocks in the address space by a new one with their data. */
    method MakeMerged(es: Ranges, begin: int, size: nat) returns (into: BlockId)
      requires Valid() && es != [] && Ordered(es) && Covers(ranges, es, begin, size)
      requires Mergeable(graph.blocks, es)
      modifies this, graph
      ensures Valid() && into !in old(graph.blocks) && into in graph.blocks
      ensures graph.blocks == old(graph.blocks)[into :=
        MergedBlock(old(graph.blocks), es, begin, size, graph.blocks[into].data, graph.blocks[into].attributes)]
      ensures HoldsBytes(old(graph.blocks), es, begin, size, graph.blocks[into].data)
      ensures HoldsAttributes(old(graph.blocks), es, graph.blocks[into].attributes)
      ensures blockAddresses == (old(blockAddresses) - BlocksOf(es))[into := begin]
    {
      assert es[0] in es;
      DataFits(graph.blocks, ranges, blockAddresses, es, begin, size);
      var data := MergedDataOf(graph.blocks, es, begin, size);
      var attributes := MergedAttributesOf(graph.blocks, es);
      ReleaseBlocks(es);
      into := CreateBlock(MergedBlock(graph.blocks, es, begin, size, data, attributes), begin);
    }

    /** Merges blocks that lie next to each other into one. */
    method MergeCovered(es: Ranges, begin: int, size: nat) returns (into: BlockId)
      requires Valid() && es != [] && Ordered(es) && Covers(ranges, es, begin, size)
      requires Mergeable(graph.blocks, es)
      modifies this, graph
      ensures Valid() && forall e :: e in es ==> e.block in old(graph.blocks)
      ensures Merged(Strip(old(graph.blocks)), old(blockAddresses), Strip(graph.blocks), blockAddresses,
                     es, begin, size, into)
    {
      ghost var g, before, rs := graph.blocks, blockAddresses, ranges;
      into := MakeMerged(es, begin, size);
      ghost var h := graph.blocks;
      CanMoveMerged(g, h, rs, before, begin, size, into, es, h[into].data, h[into].attributes);
      ghost var moved, origin := MoveBlocks(es, begin, into, before);
      MergeDone(g, h, graph.blocks, rs, ranges, before, blockAddresses, begin, size, into, es, moved, origin);
    }

    /** Merges the blocks that intersect a range. */
    method MergeRun(es: Ranges, start: int, size: nat, ghost first: nat) returns (into: BlockId)
      requires Valid() && es != [] && IsRun(ranges, es, first, start, size) && Mergeable(graph.blocks, es)
      modifies this, graph
      ensures Valid()
      ensures MergedRange(Strip(old(graph.blocks)), old(blockAddresses), Strip(graph.blocks), blockAddresses,
                          es, start, size, into)
    {
      RunOrdered(ranges, es, first, start, size);
      var begin := Begin(es, start);
      var length := End(es, start, size) - begin;
      RunCovers(ranges, es, first, start, size, length);
      RunSpans(ranges, es, first, start, size);
      RangesLie(graph.blocks, ranges, blockAddresses, es);
      ghost var f, before := Strip(graph.blocks), blockAddresses;
      into := MergeCovered(es, begin, length);
      CoveredIsRange(f, before, Strip(graph.blocks), blockAddresses, es, start, size, length, into);
    }

    /** Merges the blocks that intersect a range into one, if there are several. */
    method MergeIntersectingBlocks(start: int, size: nat)
      returns (block: Option<BlockId>, ghost es: Ranges, ghost first: nat)
      requires Valid()
      requires forall es, i: nat :: IsRun(ranges, es, i, start, size) && |es| > 1 ==> Mergeable(graph.blocks, es)
      modifies this, graph
      ensures Valid() && IsRun(old(ranges), es, first, start, size)
      ensures |es| <= 1 ==> graph.blocks == old(graph.blocks) && blockAddresses == old(blockAddresses)
      ensures |es| <= 1 ==> block == if |es| == 0 then None else Some(es[0].block)
      ensures |es| > 1 ==> block.Some?
      ensures |es| > 1 ==>
        MergedRange(Strip(old(graph.blocks)), old(blockAddresses), Strip(graph.blocks), blockAddresses,
                    es, start, size, block.value)
    {
      var intersecting;
      intersecting, first := IntersectingBlocks(start, size);
      es := intersecting;
      if intersecting == [] {
        block := None;
      } else if |intersecting| == 1 {
        block := Some(intersecting[0].block);
      } else {
        var into := MergeRun(intersecting, start, size, first);
        block := Some(into);
      }
    }
  }
}
