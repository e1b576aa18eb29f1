/** Inserting and removing bytes in the middle of a block are splices: bytes, labels, reference
    sources and reference targets move together, and removing undoes inserting. */
module GraphTheorems {
  import opened Types
  import opened ByteStrings
  import opened GraphSpecs

  // ----- bytes -----

  /** Reading unallocated bytes as zero, insertion puts zeros between prefix and suffix, whether or not
      data is allocated. */
  lemma {:induction false} InsertSplices(f: Graph, b: BlockId, offset: nat, n: nat, allocate: bool)
    requires b in f && offset <= f[b].size && |f[b].data| <= f[b].size
    ensures var after := InsertedGraph(f, b, offset, n, allocate)[b];
      && |after.data| <= after.size == f[b].size + n
      && Contents(after) == Contents(f[b])[..offset] + Zeros(n) + Contents(f[b])[offset..]
  {
    var after := InsertedGraph(f, b, offset, n, allocate)[b];
    var c := Contents(f[b])[..offset] + Zeros(n) + Contents(f[b])[offset..];
    assert |Contents(after)| == |c|;
    forall i | 0 <= i < |c| ensures Contents(after)[i] == c[i] {
      InsertedDataAt(f[b].data, offset, n, allocate, i);
    }
  }

  /** The byte that inserted data holds at some position, reading missing bytes as zero. */
  function ByteAt(data: seq<uint8>, i: int): uint8 { if 0 <= i < |data| then data[i] else 0 }

  lemma {:induction false} InsertedDataAt(data: seq<uint8>, offset: nat, n: nat, allocate: bool, i: nat)
    ensures ByteAt(InsertedData(data, offset, n, allocate), i) ==
      if i < offset then ByteAt(data, i) else if i < offset + n then 0 else ByteAt(data, i - n)
  {
    InsertedByteAt(data, offset, n, i);
    assert ByteAt(InsertedData(data, offset, n, allocate), i) == ByteAt(InsertedBytes(data, offset, n), i);
  }

  lemma {:induction false} InsertedByteAt(data: seq<uint8>, offset: nat, n: nat, i: nat)
    ensures ByteAt(InsertedBytes(data, offset, n), i) ==
      if i < offset then ByteAt(data, i) else if i < offset + n then 0 else ByteAt(data, i - n)
  {
    var e := InsertedBytes(data, offset, n);
    if offset < |data| {
      if offset + n <= i < |e| { assert e[i] == data[offset..][i - offset - n]; }
    }
  }

  /** Removal joins prefix and suffix. */
  lemma {:induction false} RemoveSplices(f: Graph, b: BlockId, offset: nat, n: nat)
    requires b in f && offset + n <= f[b].size && |f[b].data| <= f[b].size
    requires Removable(f, b, offset, n) && WellSized(f)
    ensures var after := RemovedGraph(f, b, offset, n)[b];
      && |after.data| <= after.size == f[b].size - n
      && Contents(after) == Contents(f[b])[..offset] + Contents(f[b])[offset + n..]
  {
    RemovableGapFree(f, b, offset, n);
    var after := RemovedGraph(f, b, offset, n)[b];
    var c := Contents(f[b])[..offset] + Contents(f[b])[offset + n..];
    assert |Contents(after)| == |c|;
    forall i | 0 <= i < |c| ensures Contents(after)[i] == c[i] {
    }
  }

  /** The bytes behind `end`, if there are any. */
  function Behind(s: seq<uint8>, end: nat): seq<uint8> { if end <= |s| then s[end..] else [] }

  /** A range that runs past the end of the block is not refused, and what is left is then not what was outside
      the range: removal joins prefix and suffix exactly if the range is in the block. */
  lemma {:induction false} RemoveSplicesIff(f: Graph, b: BlockId, offset: nat, n: nat)
    requires b in f && offset <= f[b].size && |f[b].data| <= f[b].size && n < TWO_32
    requires Removable(f, b, offset, n) && WellSized(f)
    ensures var after := RemovedGraph(f, b, offset, n)[b];
      (|after.data| <= after.size &&
       Contents(after) == Contents(f[b])[..offset] + Behind(Contents(f[b]), offset + n)) <==> offset + n <= f[b].size
  {
    if offset + n <= f[b].size {
      RemoveSplices(f, b, offset, n);
    } else {
      RemovableGapFree(f, b, offset, n);
      assert SizeLeft(f[b].size, n) != offset;
    }
  }

  // ----- labels and references move with their bytes -----

  /** The reference at offset `o` of block `c`, if there is one. */
  function ReferenceAt(g: Graph, c: BlockId, o: int): Option<Reference>
  {
    if c in g then Get(g[c].references, o) else None
  }

  /** The reference is as it was, except that it follows the byte that it leads to: offset and base move alike. */
  predicate Follows(r: Reference, r': Reference, b: BlockId, at: int, d: int)
  {
    && r'.kind == r.kind && r'.size == r.size && r'.referenced == r.referenced
    && r'.offset - r'.base == r.offset - r.base
    && r'.offset == if r.referenced == b then Shift(r.offset, at, d) else r.offset
  }

  /** There is a reference now if and only if there was one, and it follows its byte. */
  predicate BothFollow(r: Option<Reference>, r': Option<Reference>, b: BlockId, at: int, d: int)
  {
    r.Some? == r'.Some? && (r.Some? ==> Follows(r.value, r'.value, b, at, d))
  }

  /** Insertion moves every label with the byte it is on and creates none. */
  lemma {:induction false} InsertMovesLabels(x: Block, b: BlockId, offset: nat, n: nat, allocate: bool, k: int)
    ensures var after := InsertedBlock(x, b, b, offset, n, allocate);
      && Get(after.labels, Shift(k, offset, n)) == Get(x.labels, k)
      && (offset <= k < offset + n ==> k !in after.labels)
  {
    ShiftKeysAt(x.labels, offset, n, Shift(k, offset, n));
    ShiftKeysAt(x.labels, offset, n, k);
  }

  /** Insertion moves every reference with the byte it is on and with the byte it addresses, and creates
      none. */
  lemma {:induction false} InsertMovesReferences(f: Graph, b: BlockId, offset: nat, n: nat, allocate: bool,
                                                 c: BlockId, o: int)
    requires b in f
    ensures var g := InsertedGraph(f, b, offset, n, allocate);
      && BothFollow(ReferenceAt(f, c, o), ReferenceAt(g, c, if c == b then Shift(o, offset, n) else o), b, offset, n)
      && (c == b && offset <= o < offset + n ==> ReferenceAt(g, c, o) == None)
  {
    InsertedReferences(f, b, offset, n, allocate, c, if c == b then Shift(o, offset, n) else o);
    InsertedReferences(f, b, offset, n, allocate, c, o);
  }

  /** A direct reference into the block still addresses the byte it did. */
  lemma {:induction false} InsertKeepsAddressedByte(f: Graph, b: BlockId, offset: nat, n: nat, allocate: bool,
                                                    r: Reference, r': Reference)
    requires b in f && offset <= f[b].size && |f[b].data| <= f[b].size && Follows(r, r', b, offset, n)
    requires r.referenced == b && r.offset == r.base && 0 <= r.offset < f[b].size
    ensures var after := InsertedGraph(f, b, offset, n, allocate)[b];
      && r'.base == r'.offset && 0 <= r'.offset < after.size && |after.data| <= after.size
      && Contents(after)[r'.offset] == Contents(f[b])[r.offset]
  {
    InsertSplices(f, b, offset, n, allocate);
  }

  /** An accepted removal moves every reference with the byte it is on and with the byte it addresses;
      it loses none and creates none. */
  lemma {:induction false} RemoveMovesReferences(f: Graph, b: BlockId, offset: nat, n: nat, c: BlockId, o: int)
    requires b in f && Removable(f, b, offset, n) && WellSized(f)
    ensures var g := RemovedGraph(f, b, offset, n);
      var r := ReferenceAt(f, c, o);
      && (c == b && offset <= o < offset + n ==> r == None)
      && (!(c == b && offset <= o < offset + n) ==>
            BothFollow(r, ReferenceAt(g, c, if c == b then Shift(o, offset + n, 0 - n) else o), b, offset + n, 0 - n))
  {
    hide ShiftKeys;
    RemovableGapFree(f, b, offset, n);
    if c == b {
      var targets := ShiftTargets(f[b].references, b, offset + n, 0 - n);
      ShiftKeysAt(targets, offset + n, 0 - n, Shift(o, offset + n, 0 - n));
    }
  }

  /** An accepted removal moves every label with the byte it is on, and loses none. */
  lemma {:induction false} RemoveMovesLabels(f: Graph, b: BlockId, offset: nat, n: nat, k: int)
    requires b in f && Removable(f, b, offset, n) && WellSized(f)
    ensures var after := RemovedGraph(f, b, offset, n)[b];
      if offset <= k < offset + n then k !in f[b].labels
      else Get(after.labels, Shift(k, offset + n, 0 - n)) == Get(f[b].labels, k)
  {
    hide ShiftKeys;
    RemovableGapFree(f, b, offset, n);
    ShiftKeysAt(f[b].labels, offset + n, 0 - n, Shift(k, offset + n, 0 - n));
  }

  /** A direct reference into the block still addresses the byte it did. */
  lemma {:induction false} RemoveKeepsAddressedByte(f: Graph, b: BlockId, offset: nat, n: nat, c: BlockId, o: int,
                                                    r': Reference)
    requires b in f && offset + n <= f[b].size && |f[b].data| <= f[b].size
    requires Removable(f, b, offset, n) && WellSized(f)
    requires Refers(f, c, o, b) && Follows(f[c].references[o], r', b, offset + n, 0 - n)
    requires f[c].references[o].offset == f[c].references[o].base && 0 <= f[c].references[o].offset < f[b].size
    ensures var after := RemovedGraph(f, b, offset, n)[b];
      && r'.base == r'.offset && 0 <= r'.offset < after.size && |after.data| <= after.size
      && Contents(after)[r'.offset] == Contents(f[b])[f[c].references[o].offset]
  {
    RemoveSplices(f, b, offset, n);
    assert n > 0 ==> !AddressesRange(f, (c, o), offset, offset + n);
  }

  /** How much data is allocated after an insertion: what was, with the bytes that have been inserted in it, and
      as much as is asked for. */
  lemma {:induction false} AllocatedAfterInsert(x: Block, b: BlockId, offset: nat, n: nat, allocate: bool)
    ensures var after := InsertedBlock(x, b, b, offset, n, allocate);
      var least := |x.data| + if offset < |x.data| then n else 0;
      |after.data| == if allocate && least < offset + n then offset + n else least
  {
    assert |InsertedBytes(x.data, offset, n)| == |x.data| + if offset < |x.data| then n else 0;
  }

  // ----- transferring referrers -----

  /** A transfer redirects exactly the references to the block, save its own if those are to be skipped. Offset
      and base move alike; all else is as it was. */
  lemma {:induction false} TransferMoves(g: Graph, self: BlockId, offset: int, newBlock: BlockId, skipInternal: bool,
                                         c: BlockId, o: int)
    requires Mirrored(g) && self in g && c in g && o in g[c].references
    ensures var after := Retarget(Strip(g), Transferable(g, self, skipInternal), MoveTo(newBlock, offset));
      var r := g[c].references[o];
      && c in after && o in after[c].references
      && var r' := after[c].references[o];
      if r.referenced == self && !(skipInternal && c == self) then
        && r'.kind == r.kind && r'.size == r.size && r'.referenced == newBlock
        && r'.offset == r.offset + offset && r'.base == r.base + offset
      else r' == r
  {
    StripAt(g, c);
    assert Refers(g, c, o, self) <==> g[c].references[o].referenced == self;
    assert (c, o) in g[self].referrers <==> Refers(g, c, o, self);
  }

  // ----- removing undoes inserting -----

  lemma {:induction false} ShiftLeavesGap<T>(m: map<int, T>, at: int, n: nat)
    ensures GapFree(ShiftKeys(m, at, n).Keys, at + n, 0 - n)
  {
    forall k | k in ShiftKeys(m, at, n) ensures !(at <= k < at + n) {
      ShiftKeysAt(m, at, n, k);
    }
  }

  lemma {:induction false} UndoShift<T>(m: map<int, T>, s: map<int, T>, at: int, n: nat)
    requires GapFree(s.Keys, at + n, 0 - n)
    requires forall x :: Get(s, x) == ShiftLookup(m, at, n, x)
    ensures ShiftKeys(s, at + n, 0 - n) == m
  {
    forall x ensures Get(ShiftKeys(s, at + n, 0 - n), x) == Get(m, x) {
      ShiftKeysAt(s, at + n, 0 - n, x);
      assert Get(s, x) == ShiftLookup(m, at, n, x);
      assert Get(s, x + n) == ShiftLookup(m, at, n, x + n);
    }
    SameItems(ShiftKeys(s, at + n, 0 - n), m);
  }

  lemma {:induction false} ShiftBack<T>(m: map<int, T>, at: int, n: nat)
    ensures GapFree(ShiftKeys(m, at, n).Keys, at + n, 0 - n)
    ensures ShiftKeys(ShiftKeys(m, at, n), at + n, 0 - n) == m
  {
    ShiftLeavesGap(m, at, n);
    forall x ensures Get(ShiftKeys(m, at, n), x) == ShiftLookup(m, at, n, x) {
      ShiftKeysAt(m, at, n, x);
    }
    UndoShift(m, ShiftKeys(m, at, n), at, n);
  }

  lemma {:induction false} ShiftTargetsBack(refs: ReferenceMap, b: BlockId, at: int, n: nat)
    ensures ShiftTargets(ShiftTargets(refs, b, at, n), b, at + n, 0 - n) == refs
  {
    assert forall o :: o in refs ==> ShiftTarget(ShiftTarget(refs[o], b, at, n), b, at + n, 0 - n) == refs[o];
  }

  lemma {:induction false} TargetsAndKeysCommute(refs: ReferenceMap, b: BlockId, at: int, n: nat)
    requires GapFree(ShiftKeys(refs, at, n).Keys, at + n, 0 - n)
    ensures ShiftTargets(ShiftKeys(refs, at, n), b, at + n, 0 - n)
      == ShiftKeys(ShiftTargets(refs, b, at + n, 0 - n), at, n)
  {
    var x1, x2 := ShiftTargets(ShiftKeys(refs, at, n), b, at + n, 0 - n),
                  ShiftKeys(ShiftTargets(refs, b, at + n, 0 - n), at, n);
    forall x ensures Get(x1, x) == Get(x2, x) {
      ShiftKeysAt(refs, at, n, x);
      ShiftKeysAt(ShiftTargets(refs, b, at + n, 0 - n), at, n, x);
    }
    SameItems(x1, x2);
  }

  lemma {:induction false} BlockShiftsBack(refs: ReferenceMap, b: BlockId, at: int, n: nat)
    ensures var there := ShiftKeys(ShiftTargets(refs, b, at, n), at, n);
      && GapFree(there.Keys, at + n, 0 - n)
      && ShiftKeys(ShiftTargets(there, b, at + n, 0 - n), at + n, 0 - n) == refs
  {
    var moved := ShiftTargets(refs, b, at, n);
    ShiftBack(moved, at, n);
    TargetsAndKeysCommute(moved, b, at, n);
    ShiftTargetsBack(refs, b, at, n);
    ShiftBack(refs, at, n);
  }

  lemma {:induction false} BytesBack(data: seq<uint8>, offset: nat, n: nat)
    ensures RemovedBytes(InsertedBytes(data, offset, n), offset, n) == data
  {
    if offset < |data| {
      var d := InsertedBytes(data, offset, n);
      assert d[..offset] == data[..offset];
      assert offset + n < |d| && d[offset + n..] == data[offset..];
      assert data[..offset] + data[offset..] == data;
    }
  }

  lemma {:induction false} BlockRestored(x: Block, c: BlockId, b: BlockId, offset: nat, n: nat)
    ensures var y := InsertedBlock(x, c, b, offset, n, false);
      && (c == b ==>
            n <= y.size && GapFree(y.labels.Keys, offset + n, 0 - n) && GapFree(y.references.Keys, offset + n, 0 - n))
      && ClosedBlock(y, c, b, offset, n) == x
  {
    if c == b {
      ShiftBack(x.labels, offset, n);
      BlockShiftsBack(x.references, b, offset, n);
      BytesBack(x.data, offset, n);
    } else {
      ShiftTargetsBack(x.references, b, offset, n);
    }
  }

  lemma {:induction false} InsertedSizes(f: Graph, b: BlockId, offset: nat, n: nat)
    requires b in f && WellSized(f)
    ensures WellSized(InsertedGraph(f, b, offset, n, false))
  {
    hide InsertedGraph;
    var g := InsertedGraph(f, b, offset, n, false);
    forall c, o | c in g && o in g[c].references ensures g[c].references[o].size > 0 {
      InsertedReferences(f, b, offset, n, false, c, o);
      assert ReferenceAt(g, c, o).Some?;
      var back := if c == b && o >= offset + n then o - n else o;
      assert ReferenceAt(f, c, back).Some?;
      assert c in f && back in f[c].references;
    }
  }

  /** Removing the bytes that an insertion without allocation has put in, if it is accepted, gives the
      graph back: every block, label, reference and byte. */
  lemma {:induction false} RemoveUndoesInsert(f: Graph, b: BlockId, offset: nat, n: nat)
    requires b in f && offset <= f[b].size
    requires WellSized(f) && Removable(InsertedGraph(f, b, offset, n, false), b, offset, n)
    ensures WellSized(InsertedGraph(f, b, offset, n, false))
    ensures RemovedGraph(InsertedGraph(f, b, offset, n, false), b, offset, n) == f
  {
    var g := InsertedGraph(f, b, offset, n, false);
    InsertedSizes(f, b, offset, n);
    var h := RemovedGraph(g, b, offset, n);
    forall c | c in f ensures c in h && h[c] == f[c] {
      BlockRestored(f[c], c, b, offset, n);
    }
    assert h.Keys == f.Keys;
  }

  /** No reference of the block, and no range addressed in the block, has the insertion point inside. */
  ghost predicate NothingStraddles(f: Graph, b: BlockId, offset: nat)
    requires b in f
  {
    && (forall o :: o in f[b].references ==> !(o < offset < o + f[b].references[o].size))
    && (forall c: BlockId, o: int :: Refers(f, c, o, b) ==>
          !(f[c].references[o].offset < offset < f[c].references[o].offset + f[c].references[o].size))
  }

  lemma {:induction false} InsertedReferences(f: Graph, b: BlockId, offset: nat, n: nat, allocate: bool, c: BlockId,
                                              o: int)
    requires b in f
    ensures var g := InsertedGraph(f, b, offset, n, allocate);
      var back := if c == b && o >= offset + n then o - n else o;
      ReferenceAt(g, c, o) ==
        if c == b && offset <= o < offset + n then None
        else if ReferenceAt(f, c, back).Some? then Some(ShiftTarget(ReferenceAt(f, c, back).value, b, offset, n))
        else None
  {
    if c == b { ShiftKeysAt(ShiftTargets(f[b].references, b, offset, n), offset, n, o); }
  }

  lemma {:induction false} InsertedLabels(f: Graph, b: BlockId, offset: nat, n: nat)
    requires b in f
    ensures !HasLabelIn(InsertedGraph(f, b, offset, n, false)[b], offset, offset + n)
  {
    forall k | offset <= k < offset + n ensures k !in InsertedGraph(f, b, offset, n, false)[b].labels {
      ShiftKeysAt(f[b].labels, offset, n, k);
    }
  }

  lemma {:induction false} StraddlingSourceRefused(f: Graph, b: BlockId, offset: nat, n: nat, o: int)
    requires b in f && n > 0 && o in f[b].references && o < offset < o + f[b].references[o].size
    ensures HasReferenceIn(InsertedGraph(f, b, offset, n, false)[b], offset, offset + n)
  {
    InsertedReferences(f, b, offset, n, false, b, o);
    assert o in InsertedGraph(f, b, offset, n, false)[b].references;
  }

  lemma {:induction false} StraddlingTargetRefused(f: Graph, b: BlockId, offset: nat, n: nat, c: BlockId, o: int)
    requires b in f && n > 0 && Refers(f, c, o, b)
    requires f[c].references[o].offset < offset < f[c].references[o].offset + f[c].references[o].size
    ensures IsReferencedIn(InsertedGraph(f, b, offset, n, false), b, offset, offset + n)
  {
    var g := InsertedGraph(f, b, offset, n, false);
    var o' := if c == b then Shift(o, offset, n) else o;
    InsertedReferences(f, b, offset, n, false, c, o');
    assert Refers(g, c, o', b) && AddressesRange(g, (c, o'), offset, offset + n);
  }

  lemma {:induction false} StraddlingRefused(f: Graph, b: BlockId, offset: nat, n: nat)
    requires b in f && n > 0 && Removable(InsertedGraph(f, b, offset, n, false), b, offset, n)
    ensures NothingStraddles(f, b, offset)
  {
    forall o | o in f[b].references ensures !(o < offset < o + f[b].references[o].size) {
      if o < offset < o + f[b].references[o].size { StraddlingSourceRefused(f, b, offset, n, o); }
    }
    forall c: BlockId, o: int | Refers(f, c, o, b)
      ensures !(f[c].references[o].offset < offset < f[c].references[o].offset + f[c].references[o].size)
    {
      if f[c].references[o].offset < offset < f[c].references[o].offset + f[c].references[o].size {
        StraddlingTargetRefused(f, b, offset, n, c, o);
      }
    }
  }

  lemma {:induction false} OthersAccepted(f: Graph, b: BlockId, offset: nat, n: nat)
    requires b in f && n > 0 && NothingStraddles(f, b, offset) && WellSized(f)
    ensures Removable(InsertedGraph(f, b, offset, n, false), b, offset, n)
  {
    var g := InsertedGraph(f, b, offset, n, false);
    InsertedLabels(f, b, offset, n);
    forall o | o in g[b].references ensures !(o < offset + n && o + g[b].references[o].size > offset) {
      InsertedReferences(f, b, offset, n, false, b, o);
    }
    forall c: BlockId, o: int | Refers(g, c, o, b)
      ensures !AddressesRange(g, (c, o), offset, offset + n)
    {
      InsertedReferences(f, b, offset, n, false, c, o);
      var back := if c == b && o >= offset + n then o - n else o;
      assert Refers(f, c, back, b);
    }
  }

  /** The removal of freshly inserted bytes is accepted exactly when no reference and no addressed range
      straddles the insertion point. */
  lemma {:induction false} RemovalAcceptedIff(f: Graph, b: BlockId, offset: nat, n: nat)
    requires b in f && WellSized(f)
    ensures Removable(InsertedGraph(f, b, offset, n, false), b, offset, n) <==>
            n == 0 || NothingStraddles(f, b, offset)
  {
    if n > 0 {
      if Removable(InsertedGraph(f, b, offset, n, false), b, offset, n) { StraddlingRefused(f, b, offset, n); }
      if NothingStraddles(f, b, offset) { OthersAccepted(f, b, offset, n); }
    }
  }
}
