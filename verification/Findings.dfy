/** Inputs at which the code does something that its purpose does not suggest. What it does in general is said by
    the contracts that these examples use; the one about relaxation is in `Counterexample`. */
module Findings {
  import opened Types
  import opened ByteStrings
  import opened BasicBlocks
  import opened Layout
  import opened GraphSpecs
  import opened Redirection
  import opened BlockGraphs
  import opened AddressRanges
  import opened AddressSpaces
  import opened ArHeaders
  import opened ArFiles
  import opened ArReaders

  lemma {:induction false} NotFree(g: Graph, rs: Ranges, addresses: map<BlockId, int>, b: BlockId, start: int,
                                   size: nat)
    requires Agrees(g, rs, addresses) && b in addresses && g[b].size > 0
    requires Intersects(Entry(addresses[b], g[b].size, b), start, size)
    ensures !IsFree(rs, start, size)
  {
    assert Entry(addresses[b], g[b].size, b) in rs;
  }

  /** An empty block that lies within another one can be resized, and then overlaps it. */
  method ResizeCanOverlap() returns (space: AddressSpace, ok: bool)
    ensures ok && !space.Valid()
  {
    var graph := new BlockGraph();
    space := new AddressSpace(graph);
    var a := space.AddBlock(DataBlock, 0, 4, "a");
    var b := space.AddBlock(DataBlock, 2, 0, "b");
    assert graph.blocks[a.value].size == 4 && space.blockAddresses[a.value] == 0;
    NotFree(graph.blocks, space.ranges, space.blockAddresses, a.value, 2, 2);
    ok := space.ResizeBlock(b.value, 2);
  }

  /** A block with two references to code of ten bytes, and a new block of four. */
  ghost predicate TwoReferrers(g: Graph, c: BlockId, self: BlockId, into: BlockId)
  {
    && Mirrored(g) && {c, self, into} <= g.Keys && self != into && g[self].kind == CodeBlock && g[into].size == 4
    && g[c].references == map[0 := Reference(0, 4, self, 1, 1), 4 := Reference(0, 4, self, 8, 8)]
  }

  /** The graph after both references have been set. */
  lemma {:induction false} Prepared(f: Graph, h: Graph, g: Graph, c: BlockId, self: BlockId, into: BlockId)
    requires c != self && c != into && self != into
    requires f.Keys == {c, self, into} && forall b :: b in f ==> f[b].references == map[]
    requires f[self].kind == CodeBlock && f[into].size == 4 && Mirrored(g) && c in h
    requires Strip(h) == WithReferences(Strip(f), c, f[c].references[0 := Reference(0, 4, self, 1, 1)])
    requires Strip(g) == WithReferences(Strip(h), c, h[c].references[4 := Reference(0, 4, self, 8, 8)])
    ensures TwoReferrers(g, c, self, into) && forall b, o :: Refers(g, b, o, self) ==> b == c
  {
    assert g.Keys == Strip(g).Keys == Strip(f).Keys;
    StripAt(h, c);
    forall b | b in f ensures b in g && (b != c ==> g[b].references == map[] && Strip(g)[b] == Strip(f)[b]) {
      StripAt(g, b);
      StripAt(f, b);
    }
    StripAt(g, c);
    StripAt(g, self);
    StripAt(f, self);
    StripAt(g, into);
    StripAt(f, into);
  }

  lemma {:induction false} SecondDoesNotFit(g: Graph, c: BlockId, self: BlockId, into: BlockId)
    requires TwoReferrers(g, c, self, into)
    ensures (c, 0) in Transferable(g, self, false) && TransferOneFits(g, (c, 0), self, 0, into)
    ensures (c, 4) in Transferable(g, self, false) && !TransferOneFits(g, (c, 4), self, 0, into)
    ensures !TransferFits(g, self, 0, into, false)
  {
    assert Refers(g, c, 0, self) && Refers(g, c, 4, self);
  }

  lemma {:induction false} FirstHasMoved(g: Graph, h: Graph, c: BlockId, self: BlockId, into: BlockId,
                                         done: set<Referrer>, r: Referrer)
    requires TwoReferrers(g, c, self, into) && (forall b, o :: Refers(g, b, o, self) ==> b == c)
    requires StopsAt(g, h, self, 0, into, false, done, r)
    ensures c in h && {0, 4} <= h[c].references.Keys
    ensures h[c].references[0].referenced == into && h[c].references[4].referenced == self
  {
    SecondDoesNotFit(g, c, self, into);
    assert r == (r.0, r.1) && Refers(g, r.0, r.1, self);
    assert r == (c, 4) && (c, 0) in done;
    assert c in Strip(g);
    assert c in Strip(h) && h.Keys == Strip(h).Keys;
    StripAt(h, c);
    StripAt(g, c);
  }

  /** Of two referrers of a block, a transfer that fails at the second one has moved the first one. */
  method TransferCanStopHalfway() returns (ok: bool, graph: BlockGraph, c: BlockId, self: BlockId, into: BlockId)
    ensures !ok && c in graph.blocks && {0, 4} <= graph.blocks[c].references.Keys && self != into
    ensures graph.blocks[c].references[0].referenced == into && graph.blocks[c].references[4].referenced == self
  {
    hide StopsAt, TransferFits, TwoReferrers, Strip, Mirrored, WellSized;
    graph := new BlockGraph();
    self := graph.AddBlock(CodeBlock, 10, "self");
    into := graph.AddBlock(CodeBlock, 4, "into");
    c := graph.AddBlock(DataBlock, 8, "c");
    ghost var f := graph.blocks;
    var _ := graph.SetReference(c, 0, Reference(0, 4, self, 1, 1));
    ghost var h := graph.blocks;
    var _ := graph.SetReference(c, 4, Reference(0, 4, self, 8, 8));
    ghost var g := graph.blocks;
    Prepared(f, h, g, c, self, into);
    SecondDoesNotFit(g, c, self, into);
    ok := graph.TransferReferrers(self, 0, into, false);
    ghost var done, r: Referrer :| StopsAt(g, graph.blocks, self, 0, into, false, done, r);
    FirstHasMoved(g, graph.blocks, c, self, into, done, r);
  }

  /** Removing more than there is behind the offset is not refused, and leaves data behind the end of the block. */
  lemma {:induction false} RemovalCanRunPastEnd(data: seq<uint8>)
    requires |data| == 10
    ensures var b := Block(DataBlock, 10, 1, -1, -1, {}, "b", "", map[], data, map[], {});
      var f: Graph := map[1 := b];
      && WellSized(f) && Removable(f, 1, 8, 4)
      && var after := RemovedGraph(f, 1, 8, 4)[1]; after.size == 6 && |after.data| == 8
  {
    var b := Block(DataBlock, 10, 1, -1, -1, {}, "b", "", map[], data, map[], {});
    var f: Graph := map[1 := b];
    assert Removable(f, 1, 8, 4);
    RemovableGapFree(f, 1, 8, 4);
  }

  /** A reference from outside whose offset is not its base loses the distance between them when it is directed to
      a basic block. */
  lemma {:induction false} DistanceKeptIff(l: LayoutMap, bb: BBId, r: Reference)
    requires bb in l
    ensures Landing(l, bb, r).offset - Landing(l, bb, r).base == r.offset - r.base <==> r.offset == r.base
  {
  }

  // ----- archives -----

  /** A mode that is written as a negative number is not read. */
  lemma {:induction false} ModeIsLost()
    ensures var h := Header([0x61, SLASH], 0, 0xFFFF_FFFF, 0);
      Fits(h) && ParsedHeader(HeaderBytes(h)).None?
  {
    var h := Header([0x61, SLASH], 0, 0xFFFF_FFFF, 0);
    ModeFitsIff(h.mode);
    hide ModeText, HeaderBytes, ParsedHeader;
    HeaderParsesIff(h);
  }

  /** The only file at an offset; its name is the letter a. */
  lemma {:induction false} TinyMember(file: seq<uint8>, o: nat, h: Header)
    requires h == Header([0x61, SLASH], 0, 0, 0)
    ensures Fits(h) && TranslatedName(h.name, []) == Some([0x61])
    ensures At(file, o, HeaderBytes(h)) ==> MemberAt(file, o) == Some(File(h, []))
  {
    ModeFitsIff(0);
    assert InternalName([0x61], 0) == h.name;
    hide ModeText, HeaderBytes, ParsedHeader, MemberAt, HeaderAt, TranslatedName;
    ShortNameTranslatesIff([0x61], 0, []);
    HeaderParsesIff(h);
    assert HeaderBytes(h) + [] == HeaderBytes(h);
    if At(file, o, HeaderBytes(h)) { MemberReads(file, o, h, []); }
  }

  /** A reader whose table has the second file in front of the first: after it has extracted the second one it is
      where the first one is, and seeking the first one succeeds but leaves it with nothing to extract. */
  method SeekCanKeepIndex() returns (reader: ArReader, ok: bool)
    ensures ok && 0 < |reader.offsets| && reader.offset == reader.offsets[0] && !reader.HasNext()
  {
    hide Fits, HeaderBytes, ParsedHeader, MemberAt, HeaderAt, TranslatedName;
    var h := Header([0x61, SLASH], 0, 0, 0);
    TinyMember([], 0, h);
    var raw := new uint8[HEADER_SIZE];
    ok := PopulateArFileHeader(h, raw);
    var file := raw[..] + raw[..];
    TinyMember(file, 0, h);
    reader := new ArReader(file);
    reader.offsets, reader.offsetsInverse := [HEADER_SIZE, 0], map[HEADER_SIZE := 0, 0 := 1];
    reader.offset, reader.index, reader.filenames := HEADER_SIZE, 0, [];
    ghost var s := Source([], [], [], 0);
    ok := reader.SeekIndex(1, s, 0);
    var extracted, h', data := reader.ExtractNext(s, 0);
    ok := reader.SeekIndex(0, s, 0);
  }
}
