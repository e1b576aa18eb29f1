/** The block graph as an object: the operations that change it in place.

    Every operation keeps the mirror between references and referrers; what an operation does to the
    references is stated on the graph without its referrer records, which
    `GraphSpecs.MirrorIsUnique` shows to be complete. */
module BlockGraphs {
  import opened Types
  import opened GraphSpecs
  import opened OrderedMaps
  import opened Merging

  class BlockGraph {
    var blocks: Graph
    var nextBlockId: nat

    ghost predicate Valid()
      reads this
    {
      Linked() && forall b :: b in blocks ==> b <= nextBlockId
    }

    /** References and referrers mirror each other, whatever the ids. */
    ghost predicate Linked()
      reads this
    {
      Mirrored(blocks) && WellSized(blocks)
    }

    constructor ()
      ensures Valid() && blocks == map[] && nextBlockId == 0
    {
      blocks := map[];
      nextBlockId := 0;
    }

    method AddBlock(kind: BlockType, size: nat, name: string) returns (id: BlockId)
      requires Valid()
      modifies this
      ensures Valid()
      ensures id !in old(blocks) && nextBlockId == id == old(nextBlockId) + 1
      ensures blocks == old(blocks)[id := Block(kind, size, 1, -1, -1, {}, name, "", map[], [], map[], {})]
    {
      nextBlockId := nextBlockId + 1;
      id := nextBlockId;
      blocks := blocks[id := Block(kind, size, 1, -1, -1, {}, name, "", map[], [], map[], {})];
    }

    /** Removes a block that is fully disconnected; any other block stays. */
    method RemoveBlock(id: BlockId) returns (removed: bool)
      requires Valid()
      modifies this
      ensures Valid() && nextBlockId == old(nextBlockId)
      ensures removed <==> id in old(blocks) && old(blocks)[id].references == map[] && old(blocks)[id].referrers == {}
      ensures blocks == if removed then old(blocks) - {id} else old(blocks)
    {
      if id !in blocks {
        return false;
      }
      if |blocks[id].referrers| > 0 || |blocks[id].references| > 0 {
        return false;
      }
      DropKeepsMirror(blocks, id);
      blocks := blocks - {id};
      removed := true;
    }

    /** Sets the reference at an offset, replacing an earlier one there; returns whether it is new. */
    method SetReference(b: BlockId, o: int, ref: Reference) returns (inserted: bool)
      requires Linked() && b in blocks && ref.referenced in blocks && ref.size > 0
      modifies this
      ensures Linked() && (old(Valid()) ==> Valid()) && nextBlockId == old(nextBlockId)
      ensures inserted <==> o !in old(blocks)[b].references
      ensures Strip(blocks) == WithReferences(Strip(old(blocks)), b, old(blocks)[b].references[o := ref])
    {
      ghost var before := blocks;
      if o in blocks[b].references {
        var earlier := blocks[b].references[o].referenced;
        blocks := blocks[earlier := blocks[earlier].(referrers := blocks[earlier].referrers - {(b, o)})];
        inserted := false;
      } else {
        inserted := true;
      }
      blocks := blocks[b := blocks[b].(references := blocks[b].references[o := ref])];
      var target := ref.referenced;
      blocks := blocks[target := blocks[target].(referrers := blocks[target].referrers + {(b, o)})];
      assert blocks == ReferenceSet(before, b, o, ref);
      SetKeepsMirror(before, b, o, ref);
      SetStrips(before, b, o, ref);
      SetKeepsSizes(before, b, o, ref);
    }

    method RemoveReference(b: BlockId, o: int) returns (removed: bool)
      requires Valid() && b in blocks
      modifies this
      ensures Valid() && nextBlockId == old(nextBlockId)
      ensures removed <==> o in old(blocks)[b].references
      ensures Strip(blocks) == WithReferences(Strip(old(blocks)), b, old(blocks)[b].references - {o})
    {
      ghost var before := blocks;
      if o !in blocks[b].references {
        assert blocks[b].references - {o} == blocks[b].references;
        return false;
      }
      var referenced := blocks[b].references[o].referenced;
      blocks := blocks[referenced := blocks[referenced].(referrers := blocks[referenced].referrers - {(b, o)})];
      blocks := blocks[b := blocks[b].(references := blocks[b].references - {o})];
      removed := true;
      assert blocks == ReferenceRemoved(before, b, o);
      RemoveKeepsMirror(before, b, o);
      RemoveStrips(before, b, o);
      RemoveKeepsSizes(before, b, o);
    }

    method RemoveAllReferences(b: BlockId)
      requires Valid() && b in blocks
      modifies this
      ensures Valid() && nextBlockId == old(nextBlockId)
      ensures Strip(blocks) == WithReferences(Strip(old(blocks)), b, map[])
    {
      ghost var f := Strip(blocks);
      ReferencesTwice(f, b, map[], map[]);
      var todo := blocks[b].references.Keys;
      while todo != {}
        invariant Valid() && nextBlockId == old(nextBlockId) && b in blocks
        invariant Strip(blocks) == WithReferences(f, b, blocks[b].references)
        invariant blocks[b].references.Keys == todo
        decreases |todo|
      {
        var o := Pick(todo);
        ghost var refs := blocks[b].references;
        var _ := RemoveReference(b, o);
        ReferencesTwice(f, b, refs, refs - {o});
        StripAt(blocks, b);
        todo := todo - {o};
      }
    }

    /** Redirects one reference to block `self`. */
    method TransferReferrer(self: BlockId, offset: int, newBlock: BlockId, b: BlockId, o: int) returns (ok: bool)
      requires Valid() && self in blocks && newBlock in blocks && Refers(blocks, b, o, self)
      modifies this
      ensures Valid() && nextBlockId == old(nextBlockId)
      ensures ok <==> old(blocks)[self].kind != CodeBlock ||
                      0 <= old(blocks)[b].references[o].offset + offset <= old(blocks)[newBlock].size
      ensures !ok ==> blocks == old(blocks)
      ensures ok ==> Strip(blocks) == WithReferences(Strip(old(blocks)), b,
        old(blocks)[b].references[o := Moved(old(blocks)[b].references[o], newBlock, offset)])
    {
      var ref := blocks[b].references[o];
      var newOffset := ref.offset + offset;
      if blocks[self].kind == CodeBlock {
        if newOffset < 0 || newOffset > blocks[newBlock].size {
          return false;
        }
      }
      assert ref.size > 0;
      var _ := SetReference(b, o, Reference(ref.kind, ref.size, newBlock, newOffset, ref.base + offset));
      return true;
    }

    /** Redirects the references to block `self` to `newBlock`, `offset` bytes further on. Fails, with
        some of them redirected, if `self` is a code block and a reference would leave `newBlock`. */
    method TransferReferrers(self: BlockId, offset: int, newBlock: BlockId, skipInternal: bool) returns (ok: bool)
      requires Valid() && self in blocks && newBlock in blocks
      modifies this
      ensures Valid() && nextBlockId == old(nextBlockId)
      ensures ok <==> TransferFits(old(blocks), self, offset, newBlock, skipInternal)
      ensures ok ==> Strip(blocks) == Retarget(Strip(old(blocks)), Transferable(old(blocks), self, skipInternal),
                                               MoveTo(newBlock, offset))
      ensures !ok ==> exists done, r: Referrer ::
        StopsAt(old(blocks), blocks, self, offset, newBlock, skipInternal, done, r)
    {
      ghost var g := blocks;
      var todo := blocks[self].referrers;
      TransferBegins(g, self, offset, newBlock, skipInternal);
      while todo != {}
        invariant Valid() && nextBlockId == old(nextBlockId)
        invariant Transferring(g, blocks, self, offset, newBlock, skipInternal, todo)
        decreases |todo|
      {
        var referrer := FirstReferrer(todo);
        ghost var h := blocks;
        TransferVisits(g, h, self, offset, newBlock, skipInternal, todo, referrer);
        if skipInternal && referrer.0 == self {
          TransferSkips(g, h, self, offset, newBlock, todo, referrer);
        } else {
          ok := TransferReferrer(self, offset, newBlock, referrer.0, referrer.1);
          if !ok {
            TransferFails(g, h, self, offset, newBlock, skipInternal, todo, referrer);
            return;
          }
          TransferAdvances(g, h, blocks, self, offset, newBlock, skipInternal, todo, referrer);
        }
        todo := todo - {referrer};
      }
      TransferEnds(g, blocks, self, offset, newBlock, skipInternal);
      ok := true;
    }

    /** Removes the references at and behind `at`. */
    method RemoveReferencesFrom(self: BlockId, at: int)
      requires Valid() && self in blocks
      modifies this
      ensures Valid() && nextBlockId == old(nextBlockId)
      ensures Strip(blocks) == WithReferences(Strip(old(blocks)), self, Before(old(blocks)[self].references, at))
    {
      ghost var f := Strip(blocks);
      ghost var references := blocks[self].references;
      ReferencesTwice(f, self, references, references);
      UnmovedBegins(references, at);
      var moved := set k | k in blocks[self].references && k >= at;
      while moved != {}
        invariant Valid() && nextBlockId == old(nextBlockId)
        invariant Strip(blocks) == WithReferences(f, self, Unmoved(references, at, moved))
        invariant forall k :: k in moved ==> k >= at
        decreases |moved|
      {
        var k := Pick(moved);
        ghost var g := blocks;
        ReferencesNow(f, g, self, Unmoved(references, at, moved));
        var _ := RemoveReference(self, k);
        UnmovedStep(references, at, moved, k);
        ReferencesNext(f, g, blocks, self, Unmoved(references, at, moved), Unmoved(references, at, moved - {k}));
        moved := moved - {k};
      }
    }

    /** Moves the references of block `self` at and behind `at`, and the targets that references of
        the block have in the block itself, by `d` bytes. */
    method ShiftReferences(self: BlockId, at: int, d: int)
      requires Valid() && self in blocks && GapFree(blocks[self].references.Keys, at, d)
      modifies this
      ensures Valid() && nextBlockId == old(nextBlockId)
      ensures Strip(blocks) == WithReferences(Strip(old(blocks)), self,
        ShiftKeys(ShiftTargets(old(blocks)[self].references, self, at, d), at, d))
    {
      ghost var f := Strip(blocks);
      var references := blocks[self].references;

      RemoveReferencesFrom(self, at);

      NothingShifted(references, self, at, d);
      PatchReferences(self, at, d, references, f);
    }

    /** Puts the references back that a copy of the block's reference map holds, at their new offsets. */
    method PatchReferences(self: BlockId, at: int, d: int, references: ReferenceMap, ghost f: Graph)
      requires Valid() && self in f && GapFree(references.Keys, at, d)
      requires Strip(blocks) == WithReferences(f, self, PartlyShifted(references, {}, self, at, d))
      requires forall k :: k in references ==> references[k].referenced in f && references[k].size > 0
      modifies this
      ensures Valid() && nextBlockId == old(nextBlockId)
      ensures Strip(blocks) == WithReferences(f, self, ShiftKeys(ShiftTargets(references, self, at, d), at, d))
    {
      var todo := references.Keys;
      ghost var done: set<int> := {};
      while todo != {}
        invariant Valid() && nextBlockId == old(nextBlockId)
        invariant todo + done == references.Keys
        invariant Strip(blocks) == WithReferences(f, self, PartlyShifted(references, done, self, at, d))
        decreases |todo|
      {
        var k := Pick(todo);
        ghost var g := blocks;
        assert k in references && g.Keys == Strip(g).Keys == f.Keys;
        ReferencesNow(f, g, self, PartlyShifted(references, done, self, at, d));
        PatchReference(self, at, d, k, references[k]);
        PartlyShiftedStep(references, done, self, at, d, k);
        ReferencesNext(f, g, blocks, self, PartlyShifted(references, done, self, at, d),
                       PartlyShifted(references, done + {k}, self, at, d));
        todo, done := todo - {k}, done + {k};
      }
      assert done == references.Keys;
      FullyShifted(references, self, at, d);
    }

    /** Puts one reference back at its new offset, with its target moved if it is in the block. */
    method PatchReference(self: BlockId, at: int, d: int, k: int, reference: Reference)
      requires Valid() && self in blocks && reference.referenced in blocks && reference.size > 0
      modifies this
      ensures Valid() && nextBlockId == old(nextBlockId)
      ensures Strip(blocks) == WithReferences(Strip(old(blocks)), self,
        old(blocks)[self].references[Shift(k, at, d) := ShiftTarget(reference, self, at, d)])
    {
      var ref := reference;
      var newOffset := k;
      if ref.referenced == self && ref.offset >= at {
        ref := Reference(ref.kind, ref.size, ref.referenced, ref.offset + d, ref.base + d);
      }
      if k >= at {
        newOffset := newOffset + d;
      }
      var _ := SetReference(self, newOffset, ref);
    }

    /** Moves the targets that references of other blocks have at and behind `at` by `d` bytes. */
    method ShiftReferrers(self: BlockId, at: int, d: int)
      requires Valid() && self in blocks
      modifies this
      ensures Valid() && nextBlockId == old(nextBlockId)
      ensures Strip(blocks) == OthersShifted(Strip(old(blocks)), self, at, d)
    {
      hide ShiftingReferrers, Strip, Mirrored, WithReferences;
      ghost var g := blocks;
      var todo := blocks[self].referrers;
      ShiftingBegins(g, self, at, d);
      while todo != {}
        invariant Valid() && nextBlockId == old(nextBlockId)
        invariant ShiftingReferrers(g, blocks, self, at, d, todo)
        decreases |todo|
      {
        var referrer := Pick(todo);
        ghost var h := blocks;
        ShiftingVisits(g, h, self, at, d, todo, referrer);
        var (b, o) := referrer;
        // The references of the block itself were shifted with its bytes.
        if b != self {
          var ref := blocks[b].references[o];
          if ref.offset >= at {
            assert ref.size > 0;
            var _ := SetReference(b, o, Reference(ref.kind, ref.size, ref.referenced, ref.offset + d, ref.base + d));
            ShiftingAdvances(g, h, blocks, self, at, d, todo, referrer);
          } else {
            ShiftingPasses(g, h, self, at, d, todo, referrer);
          }
        } else {
          ShiftingPasses(g, h, self, at, d, todo, referrer);
        }
        todo := todo - {referrer};
      }
      ShiftingEnds(g, blocks, self, at, d);
    }

    /** Gives a block a new size and new data. */
    method ReplaceData(b: BlockId, size: nat, data: seq<uint8>)
      requires Valid() && b in blocks
      modifies this
      ensures Valid() && nextBlockId == old(nextBlockId)
      ensures blocks == old(blocks)[b := old(blocks)[b].(size := size, data := data)]
      ensures Strip(blocks) == Strip(old(blocks))[b := Strip(old(blocks))[b].(size := size, data := data)]
    {
      ghost var g := blocks;
      blocks := blocks[b := blocks[b].(size := size, data := data)];
      SameLinks(g, blocks);
      SameStrip(g, blocks, b, size, data);
    }

    /** Cuts the data of a block or extends it with zeros. */
    method ResizeData(b: BlockId, n: nat)
      requires Valid() && b in blocks
      modifies this
      ensures Valid() && nextBlockId == old(nextBlockId)
      ensures Strip(blocks) == DataResized(Strip(old(blocks)), b, n)
    {
      var data := blocks[b].data;
      StripAt(blocks, b);
      if n == |data| {
        assert data[..n] == data;
        return;
      }
      if n < |data| {
        data := data[..n];
      } else {
        data := data + Zeros(n - |data|);
      }
      ReplaceData(b, blocks[b].size, data);
    }

    /** Moves everything in block `b` at and behind `at` by `d` bytes: labels, references and targets. */
    method ShiftBlock(b: BlockId, at: int, d: int)
      requires Valid() && b in blocks && d != 0
      requires GapFree(blocks[b].labels.Keys, at, d) && GapFree(blocks[b].references.Keys, at, d)
      modifies this
      ensures Valid() && nextBlockId == old(nextBlockId)
      ensures Strip(blocks) == ShiftedGraph(Strip(old(blocks)), b, at, d)
    {
      ghost var g := blocks;
      var labels := ShiftOffsetItemMap(at, d, blocks[b].labels);
      blocks := blocks[b := blocks[b].(labels := labels)];
      SameLinks(g, blocks);
      ghost var h := blocks;
      ShiftReferences(b, at, d);
      ShiftReferrers(b, at, d);
      ShiftComposes(g, h, b, at, d);
    }

    /** Makes room for `n` zero bytes in the data of a block, if the data reaches that far, and in its size. */
    method MakeRoom(b: BlockId, offset: nat, n: nat)
      requires Valid() && b in blocks
      modifies this
      ensures Valid() && nextBlockId == old(nextBlockId)
      ensures Strip(blocks) == RoomMade(Strip(old(blocks)), b, offset, n)
    {
      var data := blocks[b].data;
      if offset < |data| {
        data := data[..offset] + Zeros(n) + data[offset..];
      }
      ReplaceData(b, blocks[b].size + n, data);
    }

    /** Inserts bytes without allocating any data behind the end of the data. */
    method InsertBytes(b: BlockId, offset: nat, n: nat)
      requires Valid() && b in blocks
      modifies this
      ensures Valid() && nextBlockId == old(nextBlockId)
      ensures Strip(blocks) == InsertedGraph(Strip(old(blocks)), b, offset, n, false)
    {
      if n == 0 {
        InsertNothing(Strip(blocks), b, offset);
        return;
      }
      ShiftBlock(b, offset, n);
      InsertComposes(Strip(old(blocks)), blocks, b, offset, n);
      MakeRoom(b, offset, n);
    }

    /** Inserts `n` zero bytes at `offset`, moving everything behind. Data is allocated up to the end of
        the insertion on request only. */
    method InsertData(b: BlockId, offset: nat, n: nat, alwaysAllocateData: bool)
      requires Valid() && b in blocks && offset <= blocks[b].size
      modifies this
      ensures Valid() && nextBlockId == old(nextBlockId)
      ensures Strip(blocks) == InsertedGraph(Strip(old(blocks)), b, offset, n, alwaysAllocateData)
    {
      InsertBytes(b, offset, n);
      InsertAllocates(Strip(old(blocks)), blocks, b, offset, n, alwaysAllocateData);
      if alwaysAllocateData && |blocks[b].data| < offset + n {
        ResizeData(b, offset + n);
      }
    }

    /** Whether a reference of the block touches the bytes from `lo` to `hi`, visiting the references in
        order and stopping behind the range. */
    method TouchesReference(b: BlockId, lo: int, hi: int) returns (touches: bool)
      requires b in blocks
      ensures touches <==> HasReferenceIn(blocks[b], lo, hi)
    {
      hide Ascended;
      var references := blocks[b].references;
      var keys := AscendingKeys(references.Keys);
      var i := 0;
      while i < |keys| && keys[i] < hi
        invariant 0 <= i <= |keys|
        invariant forall j :: 0 <= j < i ==>
          keys[j] in references && !(keys[j] < hi && keys[j] + references[keys[j]].size > lo)
      {
        assert keys[i] in references;
        if keys[i] + references[keys[i]].size > lo {
          return true;
        }
        i := i + 1;
      }
      forall o | o in references
        ensures !(o < hi && o + references[o].size > lo)
      {
        assert o in keys;
      }
      return false;
    }

    /** Whether some reference to the block addresses bytes from `lo` to `hi`. */
    method TouchesReferrer(b: BlockId, lo: int, hi: int) returns (touches: bool)
      requires Valid() && b in blocks
      ensures touches <==> IsReferencedIn(blocks, b, lo, hi)
    {
      var todo := blocks[b].referrers;
      while todo != {}
        invariant todo <= blocks[b].referrers
        invariant forall r :: r in blocks[b].referrers && r !in todo ==> !AddressesRange(blocks, r, lo, hi)
        decreases |todo|
      {
        var r := Pick(todo);
        assert r == (r.0, r.1);
        ReferrerHasReference(blocks, b, r.0, r.1);
        var ref := blocks[r.0].references[r.1];
        if ref.offset < hi && ref.offset + ref.size > lo {
          return true;
        }
        todo := todo - {r};
      }
      forall c: BlockId, o: int | Refers(blocks, c, o, b)
        ensures !AddressesRange(blocks, (c, o), lo, hi)
      {
        assert (c, o) in blocks[b].referrers;
      }
      return false;
    }

    /** Removes `n` bytes at `offset`, moving everything behind. Refuses, changing nothing, if a label, a
        reference or the target of a reference is among the bytes. */
    method RemoveData(b: BlockId, offset: nat, n: nat) returns (ok: bool)
      requires Valid() && b in blocks && offset <= blocks[b].size
      modifies this
      ensures Valid() && nextBlockId == old(nextBlockId)
      ensures ok <==> Removable(old(blocks), b, offset, n)
      ensures !ok ==> blocks == old(blocks)
      ensures ok ==> Removable(Strip(old(blocks)), b, offset, n) && WellSized(Strip(old(blocks)))
      ensures ok ==> Strip(blocks) == RemovedGraph(Strip(old(blocks)), b, offset, n)
    {
      StripRemovable(blocks, b, offset, n);
      if n == 0 {
        RemoveNothing(Strip(blocks), b, offset);
        return true;
      }
      if exists k :: k in blocks[b].labels && offset <= k < offset + n {
        return false;
      }
      var touches := TouchesReference(b, offset, offset + n);
      if touches {
        return false;
      }
      touches := TouchesReferrer(b, offset, offset + n);
      if touches {
        return false;
      }
      RemovableGapFree(blocks, b, offset, n);
      RemoveBytes(b, offset, n);
      return true;
    }

    method RemoveBytes(b: BlockId, offset: nat, n: nat)
      requires Valid() && b in blocks && n > 0
      requires GapFree(blocks[b].labels.Keys, offset + n, 0 - n)
      requires GapFree(blocks[b].references.Keys, offset + n, 0 - n)
      modifies this
      ensures Valid() && nextBlockId == old(nextBlockId)
      ensures Strip(blocks) == GapClosed(Strip(old(blocks)), b, offset, n)
    {
      hide Mirrored, WellSized, Strip, ShiftedGraph, GapCut, GapClosed;
      ghost var f := Strip(blocks);
      StripAt(blocks, b);
      ShiftBlock(b, offset + n, 0 - n);
      RemoveComposes(f, blocks, b, offset, n);
      CloseGap(b, offset, n);
    }

    /** Takes `n` bytes out of the data of a block, if the data reaches that far, and out of its size. */
    method CloseGap(b: BlockId, offset: nat, n: nat)
      requires Valid() && b in blocks
      modifies this
      ensures Valid() && nextBlockId == old(nextBlockId)
      ensures Strip(blocks) == GapCut(Strip(old(blocks)), b, offset, n)
    {
      var data := blocks[b].data;
      if offset < |data| {
        if offset + n < |data| {
          data := data[..offset] + data[offset + n..];
        } else {
          data := data[..offset];
        }
      }
      ReplaceData(b, SizeLeft(blocks[b].size, n), data);
    }

    /** Moves one reference of block `b` to block `into`, `d` bytes further on. */
    method MoveReference(b: BlockId, k: int, d: int, into: BlockId, ref: Reference)
      requires Valid() && b in blocks && into in blocks && b != into && ref.referenced in blocks && ref.size > 0
      modifies this
      ensures Valid() && nextBlockId == old(nextBlockId)
      ensures ReferenceMoved(old(blocks), blocks, b, into, k, d + k, ref)
    {
      var _ := RemoveReference(b, k);
      StripAt(blocks, into);
      StripAt(old(blocks), into);
      var _ := SetReference(into, d + k, ref);
    }

    /** Moves the references of block `b` to block `into`, `d` bytes further on. */
    method MoveReferences(b: BlockId, d: int, into: BlockId)
      requires Valid() && b in blocks && into in blocks && b != into
      modifies this
      ensures Valid() && nextBlockId == old(nextBlockId)
      ensures Strip(blocks) == Exchanged(Strip(old(blocks)), b, into, map[],
        MovedIn(Strip(old(blocks))[into].references, Strip(old(blocks))[b].references, d))
    {
      hide Exchanged;
      ghost var f := Strip(blocks);
      StripAt(blocks, b);
      StripAt(blocks, into);
      var references := blocks[b].references;
      var todo := references.Keys;
      ghost var rest, moved := references, blocks[into].references;
      MovingBegins(f, b, into, d);
      while todo != {}
        invariant Valid() && nextBlockId == old(nextBlockId)
        invariant todo == rest.Keys && MovingOn(references, rest, f[into].references, moved, d)
        invariant Strip(blocks) == Exchanged(f, b, into, rest, moved)
        decreases |todo|
      {
        var k := Pick(todo);
        ghost var g := blocks;
        ExchangedNow(f, g, b, into, rest, moved);
        MoveReference(b, k, d, into, references[k]);
        ExchangeNext(f, g, blocks, b, into, rest, moved, k, d + k, references[k]);
        MovingAdvances(references, rest, f[into].references, moved, d, k);
        rest, moved, todo := rest - {k}, moved[d + k := references[k]], todo - {k};
      }
      assert rest == map[];
      MovingEnds(references, f[into].references, moved, d);
    }

    /** Moves a block into another one, which lies `d` bytes before it: references, and the references
        that lead to it. The block is removed. */
    method MoveBlockInto(b: BlockId, d: int, into: BlockId)
      requires Valid() && b in blocks && into in blocks && b != into && MoveFits(blocks, b, d, into)
      modifies this
      ensures Valid() && nextBlockId == old(nextBlockId)
      ensures Strip(blocks) == BlockMovedIn(Strip(old(blocks)), b, into, d)
    {
      ghost var f := Strip(blocks);
      MoveReferences(b, d, into);
      ghost var g := blocks;
      StillFits(old(blocks), g, b, d, into);
      var transferred := TransferReferrers(b, d, into, false);
      MoveEnds(f, g, blocks, b, into, d);
      NothingRefers(g, blocks, b, into, d);
      Disconnected(blocks, b);
      StripWithout(blocks, b);
      var removed := RemoveBlock(b);
    }
  }
}
