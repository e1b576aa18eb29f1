/** The block graph serializer: saving a block graph and loading it back. */
module Serializer {
  import opened Types
  import opened ByteStrings
  import opened Archives
  import opened GraphSpecs
  import opened OrderedMaps
  import opened BlockGraphs
  import opened SavedItems
  import opened SerializerSpecs

  lemma {:induction false} Assoc(x: seq<uint8>, a: seq<uint8>, r: seq<uint8>)
    ensures (x + a) + r == x + (a + r)
  {
  }

  class BlockGraphSerializer {
    var dataMode: nat
    var omits: Omissions

    constructor (omits: Omissions)
      ensures dataMode == OUTPUT_ALL_DATA && this.omits == omits
    {
      dataMode := OUTPUT_ALL_DATA;
      this.omits := omits;
    }

    // ----- saving -----

    method MaybeSaveString(s: string, out: OutArchive)
      modifies out
      ensures out.bytes == old(out.bytes) + SavedName(omits, s)
    {
      if omits.strings {
        return;
      }
      out.SaveString(s);
    }

    method SaveShape(b: Block, out: OutArchive)
      requires PropertiesFit(omits, b)
      modifies out
      ensures out.bytes == old(out.bytes) + SavedShape(b)
    {
      Assoc(out.bytes, [KindByte(b.kind)], VarUint(b.size) + VarUint(b.alignment));
      out.Write([KindByte(b.kind)]);
      Assoc(out.bytes, VarUint(b.size), VarUint(b.alignment));
      out.SaveUint32(b.size);
      out.SaveUint32(b.alignment);
    }

    method SavePlace(b: Block, out: OutArchive)
      requires PropertiesFit(omits, b)
      modifies out
      ensures out.bytes == old(out.bytes) + SavedPlace(b)
    {
      Assoc(out.bytes, Bytes32(0), Bytes32(b.addr) + VarInt(b.section));
      out.Write(Bytes32(0));
      Assoc(out.bytes, Bytes32(b.addr), VarInt(b.section));
      out.Write(Bytes32(b.addr));
      out.SaveInt32(b.section);
    }

    method SaveBlockProperties(b: Block, out: OutArchive)
      requires PropertiesFit(omits, b)
      modifies out
      ensures out.bytes == old(out.bytes) + SavedProperties(omits, b)
    {
      Assoc(out.bytes, SavedShape(b), SavedPlace(b) + SavedNames(omits, b));
      SaveShape(b, out);
      Assoc(out.bytes, SavedPlace(b), SavedNames(omits, b));
      SavePlace(b, out);
      Assoc(out.bytes, Bytes32(Mask(b.attributes)), SavedName(omits, b.name) + SavedName(omits, b.compilandName));
      out.Write(Bytes32(Mask(b.attributes)));
      Assoc(out.bytes, SavedName(omits, b.name), SavedName(omits, b.compilandName));
      MaybeSaveString(b.name, out);
      MaybeSaveString(b.compilandName, out);
    }

    method SaveLabel(o: int, l: Label, out: OutArchive)
      requires LabelFits(omits, o, l)
      modifies out
      ensures out.bytes == old(out.bytes) + SavedLabel(omits, o, l)
    {
      ghost var rest := Bytes16(l.attributes) + SavedName(omits, l.name);
      Assoc(out.bytes, VarInt(o), rest);
      out.SaveInt32(o);
      Assoc(out.bytes, Bytes16(l.attributes), SavedName(omits, l.name));
      out.Write(Bytes16(l.attributes));
      MaybeSaveString(l.name, out);
    }

    method SaveBlockLabels(labels: map<int, Label>, out: OutArchive)
      requires LabelsFit(omits, labels)
      modifies out
      ensures out.bytes == old(out.bytes) + SavedLabels(omits, labels)
    {
      if omits.labels {
        return;
      }
      ghost var f := LabelSaver(omits);
      var ks := AscendingKeys(labels.Keys);
      out.SaveUint32(|labels|);
      ghost var head := out.bytes;
      for i := 0 to |ks|
        invariant out.bytes == head + Listed(f, labels, ks[..i])
      {
        var o := ks[i];
        ListedStep(f, labels, ks, i);
        Assoc(head, Listed(f, labels, ks[..i]), f(o, labels[o]));
        SaveLabel(o, labels[o], out);
      }
      assert ks[..|ks|] == ks;
      Assoc(old(out.bytes), VarUint(|labels|), Items(f, labels));
    }

    method SaveBlockData(data: seq<uint8>, out: OutArchive)
      requires dataMode == OUTPUT_ALL_DATA && |data| < TWO_32
      modifies out
      ensures out.bytes == old(out.bytes) + SavedData(data)
    {
      out.SaveUint32(|data|);
      if |data| > 0 {
        Assoc(old(out.bytes), VarUint(|data|), data);
        out.Write(data);
      }
    }

    method SaveBlock(id: BlockId, b: Block, out: OutArchive)
      requires dataMode == OUTPUT_ALL_DATA && BlockFits(omits, id, b)
      modifies out
      ensures out.bytes == old(out.bytes) + SavedBlock(omits, id, b)
    {
      Assoc(out.bytes, Bytes32(id), SavedContents(omits, b));
      out.Write(Bytes32(id));
      Assoc(out.bytes, SavedProperties(omits, b), SavedLabels(omits, b.labels) + SavedData(b.data));
      SaveBlockProperties(b, out);
      Assoc(out.bytes, SavedLabels(omits, b.labels), SavedData(b.data));
      SaveBlockLabels(b.labels, out);
      SaveBlockData(b.data, out);
    }

    /** All blocks by ascending id, without references. */
    method SaveBlocks(g: Graph, out: OutArchive)
      requires dataMode == OUTPUT_ALL_DATA
      requires forall id :: id in g ==> BlockFits(omits, id, g[id])
      modifies out
      ensures out.bytes == old(out.bytes) + SavedBlocks(omits, g)
    {
      hide Ascended, Ascending, BlockFits, Bytes32;
      ghost var f := BlockSaver(omits);
      var ks := AscendingKeys(g.Keys);
      out.Write(Bytes32(|g|));
      ghost var head := out.bytes;
      for i := 0 to |ks|
        invariant out.bytes == head + Listed(f, g, ks[..i])
      {
        assert ks[i] in g.Keys;
        var id: BlockId := ks[i];
        ListedStep(f, g, ks, i);
        Assoc(head, Listed(f, g, ks[..i]), f(id, g[id]));
        SaveBlock(id, g[id], out);
      }
      assert ks[..|ks|] == ks;
      Assoc(old(out.bytes), Bytes32(|g|), Items(f, g));
    }

    method SaveReference(o: int, r: Reference, out: OutArchive)
      requires ReferenceFits(o, r)
      modifies out
      ensures out.bytes == old(out.bytes) + SavedReference(o, r)
    {
      Assoc(out.bytes, VarInt(o), [KindAndSize(r)] + SavedTarget(r));
      out.SaveInt32(o);
      Assoc(out.bytes, [KindAndSize(r)], SavedTarget(r));
      out.Write([KindAndSize(r)]);
      Assoc(out.bytes, Bytes32(r.referenced), VarInt(r.offset) + VarInt(r.base - r.offset));
      out.Write(Bytes32(r.referenced));
      Assoc(out.bytes, VarInt(r.offset), VarInt(r.base - r.offset));
      out.SaveInt32(r.offset);
      out.SaveInt32(r.base - r.offset);
    }

    method SaveBlockReferences(references: ReferenceMap, out: OutArchive)
      requires ReferencesFit(references)
      modifies out
      ensures out.bytes == old(out.bytes) + SavedReferences(references)
    {
      ghost var f := ReferenceSaver();
      var ks := AscendingKeys(references.Keys);
      out.Write(Bytes32(|references|));
      ghost var head := out.bytes;
      for i := 0 to |ks|
        invariant out.bytes == head + Listed(f, references, ks[..i])
      {
        var o := ks[i];
        ListedStep(f, references, ks, i);
        Assoc(head, Listed(f, references, ks[..i]), f(o, references[o]));
        SaveReference(o, references[o], out);
      }
      assert ks[..|ks|] == ks;
      Assoc(old(out.bytes), Bytes32(|references|), Items(f, references));
    }

    method SaveBlockGraphReferences(g: Graph, out: OutArchive)
      requires forall id :: id in g ==> ReferencesFit(g[id].references)
      modifies out
      ensures out.bytes == old(out.bytes) + Items(BlockReferencesSaver(), g)
    {
      hide BlockReferencesSaver, SavedReferences, ReferencesFit;
      ghost var f := BlockReferencesSaver();
      var ks := AscendingKeys(g.Keys);
      ghost var head := out.bytes;
      for i := 0 to |ks|
        invariant out.bytes == head + Listed(f, g, ks[..i])
      {
        assert ks[i] in g.Keys;
        var id: BlockId := ks[i];
        ListedStep(f, g, ks, i);
        Assoc(head, Listed(f, g, ks[..i]), f(id, g[id]));
        assert f(id, g[id]) == SavedReferencesOf(id, g[id]);
        SaveBlockReferences(g[id].references, out);
      }
      assert ks[..|ks|] == ks;
    }

    method SaveSection(id: int, s: Section, out: OutArchive)
      modifies out
      ensures out.bytes == old(out.bytes) + SavedSection(id, s)
    {
      ghost var r3 := SavedString(s.name) + Bytes32(s.characteristics);
      ghost var r2 := Bytes32(s.id) + r3;
      Assoc(out.bytes, Bytes32(id), r2);
      out.Write(Bytes32(id));
      Assoc(out.bytes, Bytes32(s.id), r3);
      out.Write(Bytes32(s.id));
      Assoc(out.bytes, SavedString(s.name), Bytes32(s.characteristics));
      out.SaveString(s.name);
      out.Write(Bytes32(s.characteristics));
    }

    method SaveSections(sections: map<int, Section>, out: OutArchive)
      modifies out
      ensures out.bytes == old(out.bytes) + SavedSections(sections)
    {
      ghost var f := SectionSaver();
      var ks := AscendingKeys(sections.Keys);
      out.Write(Bytes32(|sections|));
      ghost var head := out.bytes;
      for i := 0 to |ks|
        invariant out.bytes == head + Listed(f, sections, ks[..i])
      {
        var k := ks[i];
        ListedStep(f, sections, ks, i);
        Assoc(head, Listed(f, sections, ks[..i]), f(k, sections[k]));
        SaveSection(k, sections[k], out);
      }
      assert ks[..|ks|] == ks;
      Assoc(old(out.bytes), Bytes32(|sections|), Items(f, sections));
    }

    method SaveBlockGraphProperties(props: GraphProperties, nextBlockId: nat, out: OutArchive)
      modifies out
      ensures out.bytes == old(out.bytes) + SavedGraphProperties(props, nextBlockId)
    {
      ghost var r3 := Bytes32(nextBlockId) + [Low8(props.imageFormat)];
      ghost var r2 := SavedSections(props.sections) + r3;
      Assoc(out.bytes, Bytes32(props.nextSectionId), r2);
      out.Write(Bytes32(props.nextSectionId));
      Assoc(out.bytes, SavedSections(props.sections), r3);
      SaveSections(props.sections, out);
      Assoc(out.bytes, Bytes32(nextBlockId), [Low8(props.imageFormat)]);
      out.Write(Bytes32(nextBlockId));
      out.Write([Low8(props.imageFormat)]);
    }

    method SaveHead(out: OutArchive)
      requires dataMode == OUTPUT_ALL_DATA
      modifies out
      ensures out.bytes == old(out.bytes) + SavedHead(omits)
    {
      Assoc(out.bytes, Bytes32(VERSION), Bytes32(OUTPUT_ALL_DATA) + Bytes32(omits.Attributes()));
      out.Write(Bytes32(VERSION));
      Assoc(out.bytes, Bytes32(OUTPUT_ALL_DATA), Bytes32(omits.Attributes()));
      out.Write(Bytes32(dataMode));
      out.Write(Bytes32(omits.Attributes()));
    }

    method Save(graph: BlockGraph, props: GraphProperties, out: OutArchive)
      requires dataMode == OUTPUT_ALL_DATA && GraphFits(omits, props, graph.nextBlockId, graph.blocks)
      modifies out
      ensures out.bytes == old(out.bytes) + SavedGraph(omits, props, graph.nextBlockId, graph.blocks)
    {
      hide SavedHead, SavedGraphProperties, SavedBlocks, Items, BlockReferencesSaver, BlockFits, ReferencesFit;
      hide SectionsFit;
      ghost var references := Items(BlockReferencesSaver(), graph.blocks);
      Assoc(out.bytes, SavedHead(omits), SavedBody(omits, props, graph.nextBlockId, graph.blocks));
      SaveHead(out);
      Assoc(out.bytes, SavedGraphProperties(props, graph.nextBlockId), SavedBlocks(omits, graph.blocks) + references);
      SaveBlockGraphProperties(props, graph.nextBlockId, out);
      // References come last: they can be set only between blocks that are there.
      Assoc(out.bytes, SavedBlocks(omits, graph.blocks), references);
      SaveBlocks(graph.blocks, out);
      SaveBlockGraphReferences(graph.blocks, out);
    }

    // ----- loading -----

    method MaybeLoadString(archive: InArchive, ghost s: string) returns (ok: bool, value: string)
      requires archive.Valid()
      modifies archive
      ensures archive.Valid()
      ensures old(NameFits(omits, s) && archive.Ahead(SavedName(omits, s))) ==>
                ok && value == KeptName(omits, s) && archive.pos == old(archive.pos) + |SavedName(omits, s)|
    {
      if omits.strings {
        return true, "";
      }
      ok, value := archive.LoadString(s);
    }

    /** Loads the source ranges of a block, which are not part of the model. */
    method SkipSourceRanges(archive: InArchive) returns (ok: bool)
      requires archive.Valid()
      modifies archive
      ensures archive.Valid()
      ensures old(archive.Ahead(Bytes32(0))) ==> ok && archive.pos == old(archive.pos) + 4
    {
      var count;
      ok, count := archive.Load32(0);
      if ok {
        var ranges;
        ok, ranges := archive.Read(16 * count);
      }
    }

    method LoadShape(archive: InArchive, ghost b: Block) returns (ok: bool, kind: uint8, size: nat, alignment: nat)
      requires archive.Valid()
      modifies archive
      ensures archive.Valid()
      ensures ok ==> old(archive.pos) < |archive.bytes| && kind == archive.bytes[old(archive.pos)]
      ensures old(PropertiesFit(omits, b) && archive.Ahead(SavedShape(b))) ==>
                && ok && kind == KindByte(b.kind) && size == b.size && alignment == b.alignment
                && archive.pos == old(archive.pos) + |SavedShape(b)|
    {
      kind, size, alignment := 0, 0, 1;
      ghost var saved := PropertiesFit(omits, b) && archive.Ahead(SavedShape(b));
      if saved { archive.Split([KindByte(b.kind)], VarUint(b.size) + VarUint(b.alignment)); }
      ok, kind := archive.LoadByte(KindByte(b.kind));
      if !ok { return; }
      if saved { archive.Split(VarUint(b.size), VarUint(b.alignment)); }
      ok, size := archive.LoadUint32(b.size);
      if !ok { return; }
      ok, alignment := archive.LoadUint32(b.alignment);
    }

    method LoadPlace(archive: InArchive, ghost b: Block) returns (ok: bool, addr: int, section: int)
      requires archive.Valid()
      modifies archive
      ensures archive.Valid()
      ensures old(PropertiesFit(omits, b) && archive.Ahead(SavedPlace(b))) ==>
                && ok && addr == b.addr && section == b.section
                && archive.pos == old(archive.pos) + |SavedPlace(b)|
    {
      addr, section := -1, -1;
      ghost var saved := PropertiesFit(omits, b) && archive.Ahead(SavedPlace(b));
      if saved { archive.Split(Bytes32(0), Bytes32(b.addr) + VarInt(b.section)); }
      ok := SkipSourceRanges(archive);
      if !ok { return; }
      if saved { archive.Split(Bytes32(b.addr), VarInt(b.section)); }
      ok, addr := archive.Load32(b.addr);
      if !ok { return; }
      if addr == TWO_32 - 1 {
        addr := -1;
      }
      ok, section := archive.LoadInt32(b.section);
    }

    method LoadNames(archive: InArchive, ghost b: Block)
      returns (ok: bool, attributes: nat, name: string, compilandName: string)
      requires archive.Valid()
      modifies archive
      ensures archive.Valid()
      ensures ok ==> old(archive.pos) + 4 <= |archive.bytes| && attributes == WordAt(archive.bytes, old(archive.pos))
      ensures old(PropertiesFit(omits, b) && archive.Ahead(SavedNames(omits, b))) ==>
                && ok && attributes == Mask(b.attributes)
                && name == KeptName(omits, b.name) && compilandName == KeptName(omits, b.compilandName)
                && archive.pos == old(archive.pos) + |SavedNames(omits, b)|
    {
      hide At, Bytes32, SavedName, KeptName, Mask;
      name, compilandName := "", "";
      ghost var saved := PropertiesFit(omits, b) && archive.Ahead(SavedNames(omits, b));
      MaskBounded(b.attributes);
      if saved {
        archive.Split(Bytes32(Mask(b.attributes)), SavedName(omits, b.name) + SavedName(omits, b.compilandName));
      }
      ok, attributes := archive.Load32(Mask(b.attributes));
      if !ok { return; }
      if saved { archive.Split(SavedName(omits, b.name), SavedName(omits, b.compilandName)); }
      ok, name := MaybeLoadString(archive, b.name);
      if !ok { return; }
      ok, compilandName := MaybeLoadString(archive, b.compilandName);
    }

    method LoadBlockProperties(archive: InArchive, ghost b: Block) returns (ok: bool, block: Block)
      requires archive.Valid()
      modifies archive
      ensures archive.Valid() && block.references == map[] && block.referrers == {}
      ensures block.labels == map[] && (ok ==> KindSupported(archive.bytes, old(archive.pos)))
      ensures ok ==> AttributesSupported(archive.bytes, block.attributes)
      ensures old(PropertiesFit(omits, b) && archive.Ahead(SavedProperties(omits, b))) ==>
                ok && block == Bare(omits, b) && archive.pos == old(archive.pos) + |SavedProperties(omits, b)|
    {
      hide At, SavedShape, SavedPlace, SavedNames, Mask, AttributesOf, FitsVarInt;
      block := Block(CodeBlock, 0, 1, -1, -1, {}, "", "", map[], [], map[], {});
      ghost var saved := PropertiesFit(omits, b) && archive.Ahead(SavedProperties(omits, b));
      if saved { archive.Split(SavedShape(b), SavedPlace(b) + SavedNames(omits, b)); }
      var kind, size, alignment, addr, section, attributes, name, compilandName;
      ok, kind, size, alignment := LoadShape(archive, b);
      if !ok { return; }
      if saved { archive.Split(SavedPlace(b), SavedNames(omits, b)); }
      ok, addr, section := LoadPlace(archive, b);
      if !ok { return; }
      ok, attributes, name, compilandName := LoadNames(archive, b);
      if !ok { return; }
      if saved { MaskRestores(b.attributes); }
      if kind > BLOCK_TYPE_MAX || attributes >= BLOCK_ATTRIBUTES_MAX {
        ok := false;
        return;
      }
      block := Block(TypeOf(kind), size, alignment, addr, section,
                     AttributesOf(attributes, 0), name, compilandName, map[], [], map[], {});
    }

    method LoadLabel(archive: InArchive, ghost o: int, ghost l: Label) returns (ok: bool, offset: int, loaded: Label)
      requires archive.Valid()
      modifies archive
      ensures archive.Valid()
      ensures ok ==> loaded.attributes < LABEL_ATTRIBUTES_MAX
      ensures old(LabelFits(omits, o, l) && archive.Ahead(SavedLabel(omits, o, l))) ==>
                && ok && offset == o && loaded == KeptLabel(omits, l)
                && archive.pos == old(archive.pos) + |SavedLabel(omits, o, l)|
    {
      loaded := Label("", 0);
      ghost var saved := LabelFits(omits, o, l) && archive.Ahead(SavedLabel(omits, o, l));
      if saved { archive.Split(VarInt(o), Bytes16(l.attributes) + SavedName(omits, l.name)); }
      var attributes, name;
      ok, offset := archive.LoadInt32(o);
      if !ok { return; }
      if saved { archive.Split(Bytes16(l.attributes), SavedName(omits, l.name)); }
      ok, attributes := archive.Load16(l.attributes);
      if !ok { return; }
      ok, name := MaybeLoadString(archive, l.name);
      if !ok { return; }
      if attributes >= LABEL_ATTRIBUTES_MAX {
        ok := false;
        return;
      }
      loaded := Label(name, attributes);
    }

    method LoadLabelItems(archive: InArchive, count: nat, ghost saved: bool, ghost start: nat,
                          ghost labels: map<int, Label>, ghost kept: map<int, Label>)
      returns (ok: bool, loaded: map<int, Label>)
      requires archive.Valid()
      requires saved ==> count == |labels| && forall o :: o in labels ==> LabelFits(omits, o, labels[o])
      requires saved ==> AreKept(omits, labels, kept)
      requires saved ==> archive.pos == start && At(archive.bytes, start, Items(LabelSaver(omits), labels))
      modifies archive
      ensures archive.Valid()
      ensures LabelsSound(loaded) && (ok ==> |loaded| == count)
      ensures saved ==> ok && loaded == kept && archive.pos == start + |Items(LabelSaver(omits), labels)|
    {
      loaded := map[];
      ghost var f := LabelSaver(omits);
      if saved { NoneLoaded(f, labels, kept, archive.bytes, start); }
      for i := 0 to count
        invariant archive.Valid() && LabelsSound(loaded) && |loaded| == i
        invariant saved ==> Loaded(f, labels, kept, archive.bytes, start, i, archive.pos, loaded)
      {
        ghost var o, l := 0, Label("", 0);
        if saved {
          o := NextItem(f, labels, kept, archive.bytes, start, i, archive.pos, loaded);
          l := labels[o];
        }
        var offset, found;
        ok, offset, found := LoadLabel(archive, o, l);
        if !ok { return; }
        // A label can be set only once.
        if offset in loaded {
          return false, loaded;
        }
        loaded := loaded[offset := found];
      }
      if saved {
        AllLoaded(f, labels, kept, archive.bytes, start, archive.pos, loaded);
      }
      return true, loaded;
    }

    method LoadLabelMap(archive: InArchive, ghost labels: map<int, Label>, ghost kept: map<int, Label>)
      returns (ok: bool, loaded: map<int, Label>)
      requires archive.Valid()
      modifies archive
      ensures archive.Valid()
      ensures LabelsSound(loaded)
      ensures old(!omits.labels && LabelsFit(omits, labels) && AreKept(omits, labels, kept) &&
                archive.Ahead(SavedLabelMap(omits, labels))) ==>
                ok && loaded == kept && archive.pos == old(archive.pos) + |SavedLabelMap(omits, labels)|
    {
      hide At, VarUint, Items, LabelSaver, LabelFits;
      loaded := map[];
      ghost var saved := !omits.labels && LabelsFit(omits, labels) && AreKept(omits, labels, kept) &&
        archive.Ahead(SavedLabelMap(omits, labels));
      ghost var start := archive.pos + |VarUint(|labels|)|;
      if saved { archive.Split(VarUint(|labels|), Items(LabelSaver(omits), labels)); }
      var count;
      ok, count := archive.LoadUint32(|labels|);
      if !ok { return; }
      ok, loaded := LoadLabelItems(archive, count, saved, start, labels, kept);
    }

    method LoadBlockLabels(archive: InArchive, ghost labels: map<int, Label>)
      returns (ok: bool, loaded: map<int, Label>)
      requires archive.Valid()
      modifies archive
      ensures archive.Valid()
      ensures LabelsSound(loaded)
      ensures old(LabelsFit(omits, labels) && archive.Ahead(SavedLabels(omits, labels))) ==>
                && ok && loaded == KeptLabels(omits, labels)
                && archive.pos == old(archive.pos) + |SavedLabels(omits, labels)|
    {
      if omits.labels {
        return true, map[];
      }
      ok, loaded := LoadLabelMap(archive, labels, KeptLabels(omits, labels));
    }

    /** Loads the data of a block; no callback is there to set data that is not in the stream. */
    method LoadBlockData(archive: InArchive, ghost data: seq<uint8>) returns (ok: bool, loaded: seq<uint8>)
      requires archive.Valid()
      modifies archive
      ensures archive.Valid()
      ensures old(dataMode == OUTPUT_ALL_DATA && |data| < TWO_32 && archive.Ahead(SavedData(data))) ==>
                ok && loaded == data && archive.pos == old(archive.pos) + |SavedData(data)|
    {
      loaded := [];
      if |data| < TWO_32 && archive.Ahead(SavedData(data)) { archive.Split(VarUint(|data|), data); }
      var size;
      ok, size := archive.LoadUint32(|data|);
      if !ok || size == 0 { return; }
      var inStream := dataMode == OUTPUT_ALL_DATA;
      if dataMode == OUTPUT_OWNED_DATA {
        var owns;
        ok, owns := archive.ReadByte();
        if !ok { return; }
        inStream := owns != 0;
      }
      if !inStream {
        ok := false;
        return;
      }
      ok, loaded := archive.Read(size);
    }

    method LoadContents(archive: InArchive, ghost b: Block) returns (ok: bool, block: Block)
      requires archive.Valid()
      modifies archive
      ensures archive.Valid() && block.references == map[] && block.referrers == {}
      ensures LabelsSound(block.labels)
      ensures old(dataMode == OUTPUT_ALL_DATA && BlockFits(omits, 0, b) && archive.Ahead(SavedContents(omits, b))) ==>
                ok && block == Unwired(omits, b) && archive.pos == old(archive.pos) + |SavedContents(omits, b)|
    {
      hide At, SavedProperties, SavedLabels, SavedData, PropertiesFit, LabelsFit, KeptLabels;
      ghost var saved := dataMode == OUTPUT_ALL_DATA && BlockFits(omits, 0, b) &&
        archive.Ahead(SavedContents(omits, b));
      if saved { archive.Split(SavedProperties(omits, b), SavedLabels(omits, b.labels) + SavedData(b.data)); }
      ok, block := LoadBlockProperties(archive, b);
      if !ok { return; }
      if saved { archive.Split(SavedLabels(omits, b.labels), SavedData(b.data)); }
      var labels, data;
      ok, labels := LoadBlockLabels(archive, b.labels);
      if !ok { return; }
      ok, data := LoadBlockData(archive, b.data);
      block := block.(labels := labels, data := data);
    }

    /** Loads a block with its id, but without its references. */
    method LoadBlock(archive: InArchive, ghost id: int, ghost b: Block)
      returns (ok: bool, loadedId: BlockId, block: Block)
      requires archive.Valid()
      modifies archive
      ensures archive.Valid() && block.references == map[] && block.referrers == {}
      ensures LabelsSound(block.labels)
      ensures old(dataMode == OUTPUT_ALL_DATA && BlockFits(omits, id, b) && archive.Ahead(SavedBlock(omits, id, b))) ==>
                && ok && loadedId == id && block == Unwired(omits, b)
                && archive.pos == old(archive.pos) + |SavedBlock(omits, id, b)|
    {
      block := Block(CodeBlock, 0, 1, -1, -1, {}, "", "", map[], [], map[], {});
      if BlockFits(omits, id, b) && archive.Ahead(SavedBlock(omits, id, b)) {
        archive.Split(Bytes32(id), SavedContents(omits, b));
      }
      ok, loadedId := archive.Load32(id);
      if !ok { return; }
      ok, block := LoadContents(archive, b);
    }

    method LoadNextBlock(graph: BlockGraph, archive: InArchive, ghost id: int, ghost b: Block) returns (ok: bool)
      requires archive.Valid() && Unconnected(graph.blocks)
      modifies graph, archive
      ensures archive.Valid() && Unconnected(graph.blocks) && graph.nextBlockId == old(graph.nextBlockId)
      ensures old(GraphSound(graph.blocks)) ==> GraphSound(graph.blocks)
      ensures forall b :: b in old(graph.blocks) ==> b in graph.blocks && graph.blocks[b] == old(graph.blocks)[b]
      ensures |graph.blocks| == |old(graph.blocks)| + if ok then 1 else 0
      ensures old(dataMode == OUTPUT_ALL_DATA && BlockFits(omits, id, b) && archive.Ahead(SavedBlock(omits, id, b)) &&
                id !in graph.blocks.Keys) ==>
                && ok && graph.blocks == old(graph.blocks)[id := Unwired(omits, b)]
                && archive.pos == old(archive.pos) + |SavedBlock(omits, id, b)|
    {
      var loadedId, block;
      ok, loadedId, block := LoadBlock(archive, id, b);
      if !ok { return; }
      if loadedId in graph.blocks {
        ok := false;
        return;
      }
      graph.blocks := graph.blocks[loadedId := block];
    }

    method LoadBlockItems(graph: BlockGraph, archive: InArchive, count: nat, ghost saved: bool, ghost start: nat,
                          ghost g: Graph, ghost kept: Graph)
      returns (ok: bool)
      requires archive.Valid() && graph.blocks == map[]
      requires saved ==> dataMode == OUTPUT_ALL_DATA && AllFit(omits, g) && count == |g|
      requires saved ==> IsUnwired(omits, g, kept)
      requires saved ==> archive.pos == start && At(archive.bytes, start, Items(BlockSaver(omits), g))
      modifies graph, archive
      ensures archive.Valid() && Unconnected(graph.blocks) && graph.nextBlockId == old(graph.nextBlockId)
      ensures GraphSound(graph.blocks) && (ok ==> |graph.blocks| == count)
      ensures saved ==> ok && graph.blocks == kept && archive.pos == old(archive.pos) + |Items(BlockSaver(omits), g)|
    {
      ghost var f := BlockSaver(omits);
      if saved { NoneLoaded(f, g, kept, archive.bytes, start); }
      for i := 0 to count
        invariant archive.Valid() && graph.nextBlockId == old(graph.nextBlockId) && Unconnected(graph.blocks)
        invariant GraphSound(graph.blocks) && |graph.blocks| == i
        invariant saved ==> Loaded(f, g, kept, archive.bytes, start, i, archive.pos, graph.blocks)
      {
        ghost var id, b := 0, Block(CodeBlock, 0, 1, -1, -1, {}, "", "", map[], [], map[], {});
        if saved {
          id := NextItem(f, g, kept, archive.bytes, start, i, archive.pos, graph.blocks);
          b := g[id];
        }
        ok := LoadNextBlock(graph, archive, id, b);
        if !ok { return; }
      }
      if saved {
        AllLoaded(f, g, kept, archive.bytes, start, archive.pos, graph.blocks);
      }
      ok := true;
    }

    /** Loads the blocks of a graph, which are not linked yet. */
    method LoadBlocks(graph: BlockGraph, archive: InArchive, ghost g: Graph) returns (ok: bool)
      requires archive.Valid() && graph.blocks == map[]
      modifies graph, archive
      ensures archive.Valid() && Unconnected(graph.blocks) && graph.nextBlockId == old(graph.nextBlockId)
      ensures GraphSound(graph.blocks)
      ensures old(dataMode == OUTPUT_ALL_DATA && AllFit(omits, g) && archive.Ahead(SavedBlocks(omits, g))) ==>
                && ok && graph.blocks == AllUnwired(omits, g)
                && archive.pos == old(archive.pos) + |SavedBlocks(omits, g)|
    {
      hide At, Bytes32, Items, BlockSaver, BlockFits, AllUnwired;
      ghost var saved := dataMode == OUTPUT_ALL_DATA && AllFit(omits, g) && archive.Ahead(SavedBlocks(omits, g));
      ghost var start := archive.pos + |Bytes32(|g|)|;
      if saved { archive.Split(Bytes32(|g|), Items(BlockSaver(omits), g)); }
      var count;
      ok, count := archive.Load32(|g|);
      if !ok { return; }
      ok := LoadBlockItems(graph, archive, count, saved, start, g, AllUnwired(omits, g));
    }

    method LoadTarget(archive: InArchive, ghost r: Reference) returns (ok: bool, id: nat, offset: int, delta: int)
      requires archive.Valid()
      modifies archive
      ensures archive.Valid()
      ensures old(0 <= r.referenced < TWO_32 && FitsVarInt(r.offset) && FitsVarInt(r.base - r.offset) &&
                archive.Ahead(SavedTarget(r))) ==>
                && ok && id == r.referenced && offset == r.offset && delta == r.base - r.offset
                && archive.pos == old(archive.pos) + |SavedTarget(r)|
    {
      hide At, Bytes32, VarInt, FitsVarInt;
      id, offset, delta := 0, 0, 0;
      ghost var saved := archive.Ahead(SavedTarget(r));
      if saved { archive.Split(Bytes32(r.referenced), VarInt(r.offset) + VarInt(r.base - r.offset)); }
      ok, id := archive.Load32(r.referenced);
      if !ok { return; }
      if saved { archive.Split(VarInt(r.offset), VarInt(r.base - r.offset)); }
      ok, offset := archive.LoadInt32(r.offset);
      if !ok { return; }
      ok, delta := archive.LoadInt32(r.base - r.offset);
    }

    /** Loads a reference; the block it leads to has to be there. */
    method LoadReference(graph: BlockGraph, archive: InArchive, ghost r: Reference) returns (ok: bool, ref: Reference)
      requires archive.Valid()
      modifies archive
      ensures archive.Valid() && (ok ==> ref.referenced in graph.blocks)
      ensures ok ==> ref.kind < REFERENCE_TYPE_MAX && ref.size <= MAXIMUM_REFERENCE_SIZE
      ensures ok ==> old(archive.pos) < |archive.bytes| && ref.kind == KindOf(archive.bytes[old(archive.pos)])
                     && ref.size == SizeOf(archive.bytes[old(archive.pos)])
      ensures (old(ReferenceFits(0, r) && r.referenced in graph.blocks
                   && archive.Ahead([KindAndSize(r)] + SavedTarget(r)))) ==>
                ok && ref == r && archive.pos == old(archive.pos) + 1 + |SavedTarget(r)|
    {
      ref := Reference(PC_RELATIVE_REF, 4, 0, 0, 0);
      if ReferenceFits(0, r) && archive.Ahead([KindAndSize(r)] + SavedTarget(r)) {
        archive.Split([KindAndSize(r)], SavedTarget(r));
        Nibbles(r);
      }
      var both, id, offset, delta;
      ok, both := archive.LoadByte(KindAndSize(r));
      if !ok { return; }
      ok, id, offset, delta := LoadTarget(archive, r);
      if !ok { return; }
      var kind, size := KindOf(both), SizeOf(both);
      if kind >= REFERENCE_TYPE_MAX || size > MAXIMUM_REFERENCE_SIZE || id !in graph.blocks {
        ok := false;
        return;
      }
      ref := Reference(kind, size, id, offset, offset + delta);
    }

    /** Loads the next reference of a block, which has to be at a new offset. */
    method LoadNextReference(graph: BlockGraph, id: BlockId, archive: InArchive, ghost o: int, ghost r: Reference)
      returns (ok: bool)
      requires archive.Valid() && graph.Linked() && id in graph.blocks
      modifies graph, archive
      ensures archive.Valid() && graph.Linked() && graph.nextBlockId == old(graph.nextBlockId)
      ensures OnlyReferences(old(graph.blocks), id, graph.blocks)
      ensures old(ReferencesSound(graph.blocks[id].references)) ==> ReferencesSound(graph.blocks[id].references)
      ensures ok ==> exists at: int, p: nat ::
        OneMoreReference(old(graph.blocks[id].references), graph.blocks[id].references, archive.bytes, at, p)
      ensures old(ReferenceFits(o, r) && r.referenced in graph.blocks && archive.Ahead(SavedReference(o, r)) &&
                o !in graph.blocks[id].references) ==>
                && ok && graph.blocks[id].references == old(graph.blocks[id].references)[o := r]
                && archive.pos == old(archive.pos) + |SavedReference(o, r)|
    {
      ghost var before := graph.blocks;
      OnlyReferencesRefl(before, id);
      if archive.Ahead(SavedReference(o, r)) { archive.Split(VarInt(o), [KindAndSize(r)] + SavedTarget(r)); }
      var at, ref;
      ok, at := archive.LoadInt32(o);
      if !ok { return; }
      ghost var p := archive.pos;
      ok, ref := LoadReference(graph, archive, r);
      if !ok { return; }
      // No reference of size zero can be set.
      if ref.size == 0 {
        return false;
      }
      ok := graph.SetReference(id, at, ref);
      OnlyReferencesSet(before, id, before[id].references[at := ref], graph.blocks);
      if ok {
        assert OneMoreReference(before[id].references, graph.blocks[id].references, archive.bytes, at, p);
      }
    }

    method LoadBlockReferences(graph: BlockGraph, id: BlockId, archive: InArchive, ghost references: ReferenceMap)
      returns (ok: bool)
      requires archive.Valid() && graph.Linked() && id in graph.blocks && graph.blocks[id].references == map[]
      modifies graph, archive
      ensures archive.Valid() && graph.Linked() && graph.nextBlockId == old(graph.nextBlockId)
      ensures OnlyReferences(old(graph.blocks), id, graph.blocks)
      ensures ReferencesSound(graph.blocks[id].references)
      ensures old(ReferencesFit(references) && ReferInto(references, graph.blocks) &&
                archive.Ahead(SavedReferences(references))) ==>
                && ok && graph.blocks[id].references == references
                && archive.pos == old(archive.pos) + |SavedReferences(references)|
    {
      assert ReferencesSound(graph.blocks[id].references);
      hide Ascended, At, Bytes32, Items, ReferenceSaver, ReferenceFits, Loaded, Strip, WithReferences, SavedReference;
      hide Mirrored, WellSized, ReferencesSound;
      ghost var before := graph.blocks;
      OnlyReferencesRefl(before, id);
      ghost var saved := ReferencesFit(references) && ReferInto(references, before) &&
        archive.Ahead(SavedReferences(references));
      ghost var f, start := ReferenceSaver(), archive.pos + |Bytes32(|references|)|;
      if saved { archive.Split(Bytes32(|references|), Items(f, references)); }
      var count;
      ok, count := archive.Load32(|references|);
      if !ok { return; }
      if saved { NoneLoaded(f, references, references, archive.bytes, start); }
      for i := 0 to count
        invariant archive.Valid() && graph.Linked() && graph.nextBlockId == old(graph.nextBlockId)
        invariant OnlyReferences(before, id, graph.blocks) && ReferencesSound(graph.blocks[id].references)
        invariant saved ==>
            Loaded(f, references, references, archive.bytes, start, i, archive.pos, graph.blocks[id].references)
      {
        ok := LoadOneMore(graph, id, archive, saved, references, start, i, before);
        if !ok { return; }
      }
      if saved {
        AllLoaded(f, references, references, archive.bytes, start, archive.pos, graph.blocks[id].references);
      }
      ok := true;
    }

    /** Loads one more reference of a block. */
    method LoadOneMore(graph: BlockGraph, id: BlockId, archive: InArchive, ghost saved: bool,
                       ghost references: ReferenceMap, ghost start: nat, ghost i: nat, ghost before: Graph)
      returns (ok: bool)
      requires archive.Valid() && graph.Linked() && OnlyReferences(before, id, graph.blocks)
      requires ReferencesSound(graph.blocks[id].references)
      requires saved ==> ReferencesFit(references) && ReferInto(references, before) && i < |references|
      requires saved ==> Loaded(ReferenceSaver(), references, references, archive.bytes, start, i, archive.pos,
                                graph.blocks[id].references)
      modifies graph, archive
      ensures archive.Valid() && graph.Linked() && graph.nextBlockId == old(graph.nextBlockId)
      ensures OnlyReferences(before, id, graph.blocks) && ReferencesSound(graph.blocks[id].references)
      ensures saved ==> ok && Loaded(ReferenceSaver(), references, references, archive.bytes, start, i + 1,
                                     archive.pos, graph.blocks[id].references)
    {
      hide Ascended, At, Items, ReferenceSaver, Loaded, Strip, WithReferences, SavedReference, Mirrored, WellSized;
      hide ReferencesSound, ReferenceFits;
      ghost var f := ReferenceSaver();
      ghost var o, r, here := 0, Reference(PC_RELATIVE_REF, 4, 0, 0, 0), graph.blocks;
      if saved {
        o := NextItem(f, references, references, archive.bytes, start, i, archive.pos, here[id].references);
        r := references[o];
        SameBlocks(before, id, here);
      }
      ok := LoadNextReference(graph, id, archive, o, r);
      OnlyReferencesTrans(before, id, here, graph.blocks);
    }

    /** Loads the references of the next block. */
    method LoadNextReferences(graph: BlockGraph, ids: seq<BlockId>, i: nat, archive: InArchive, ghost saved: bool,
                              ghost g: Graph, ghost unwired: Graph, ghost kept: Graph, ghost start: nat,
                              ghost done: Graph)
      returns (ok: bool, ghost done': Graph)
      requires archive.Valid() && graph.Linked() && i < |ids| && Ascending(ids) && Pending(graph.blocks, ids, i)
      requires saved ==> ids == Ascended(g.Keys)
      requires saved ==> Wiring(g, unwired, kept, archive.bytes, start, i, archive.pos, graph.blocks, done)
      modifies graph, archive
      ensures archive.Valid() && graph.Linked() && graph.nextBlockId == old(graph.nextBlockId)
      ensures old(GraphSound(graph.blocks)) ==> GraphSound(graph.blocks)
      ensures Pending(graph.blocks, ids, i + 1)
      ensures saved ==>
                ok && Wiring(g, unwired, kept, archive.bytes, start, i + 1, archive.pos, graph.blocks, done')
    {
      hide Ascending, Ascended, Pending, Wiring, At, SavedReferences, ReferencesFit, ReferInto, Mirrored, WellSized;
      hide Strip, WithReferences;
      var id := ids[i];
      ghost var references, here, pos := map[], graph.blocks, archive.pos;
      NextPending(here, ids, i);
      done' := done;
      if saved {
        ghost var k := WiringAhead(g, unwired, kept, archive.bytes, start, i, pos, here, done);
        references := g[id].references;
      }
      ok := LoadBlockReferences(graph, id, archive, references);
      StillPending(here, ids, i, graph.blocks);
      if GraphSound(here) { StaysSound(here, id, graph.blocks); }
      if saved {
        WiringStep(g, unwired, kept, archive.bytes, start, i, pos, here, done, id, graph.blocks);
        done' := done[id := kept[id]];
      }
    }

    method LoadReferenceItems(graph: BlockGraph, archive: InArchive, ids: seq<BlockId>, ghost saved: bool,
                              ghost g: Graph, ghost kept: Graph)
      returns (ok: bool)
      requires archive.Valid() && graph.Linked() && Pending(graph.blocks, ids, 0)
      requires Ascending(ids) && ids == Ascended(graph.blocks.Keys)
      requires saved ==> graph.blocks.Keys == g.Keys && |ids| == |g|
      requires saved ==> Wiring(g, graph.blocks, kept, archive.bytes, archive.pos, 0, archive.pos, graph.blocks, map[])
      modifies graph, archive
      ensures archive.Valid() && graph.Linked() && graph.nextBlockId == old(graph.nextBlockId)
      ensures old(GraphSound(graph.blocks)) ==> GraphSound(graph.blocks)
      ensures saved ==>
                && ok && Strip(graph.blocks) == kept
                && archive.pos == old(archive.pos) + |Items(BlockReferencesSaver(), g)|
    {
      hide Ascending, Ascended, Pending, Wiring, Items, BlockReferencesSaver, Strip, Mirrored, WellSized;
      ghost var unwired, start, done := graph.blocks, archive.pos, map[];
      for i := 0 to |ids|
        invariant archive.Valid() && graph.Linked() && graph.nextBlockId == old(graph.nextBlockId)
        invariant Pending(graph.blocks, ids, i) && (old(GraphSound(graph.blocks)) ==> GraphSound(graph.blocks))
        invariant saved ==> Wiring(g, unwired, kept, archive.bytes, start, i, archive.pos, graph.blocks, done)
      {
        ok, done := LoadNextReferences(graph, ids, i, archive, saved, g, unwired, kept, start, done);
        if !ok { return; }
      }
      if saved {
        WiringEnds(g, unwired, kept, archive.bytes, start, archive.pos, graph.blocks, done);
      }
      ok := true;
    }

    method LoadBlockGraphReferences(graph: BlockGraph, archive: InArchive, ghost g: Graph) returns (ok: bool)
      requires archive.Valid() && graph.Linked() && Unconnected(graph.blocks)
      modifies graph, archive
      ensures archive.Valid() && graph.Linked() && graph.nextBlockId == old(graph.nextBlockId)
      ensures old(GraphSound(graph.blocks)) ==> GraphSound(graph.blocks)
      ensures old(graph.blocks == AllUnwired(omits, g) && AllReferencesFit(g) &&
                archive.Ahead(Items(BlockReferencesSaver(), g))) ==>
                && ok && Strip(graph.blocks) == Strip(Kept(omits, g))
                && archive.pos == old(archive.pos) + |Items(BlockReferencesSaver(), g)|
    {
      hide Ascending, Ascended, Pending, Wiring, WiredAs, At, Items, BlockReferencesSaver, AllReferencesFit, Strip;
      hide Kept, Mirrored, WellSized;
      ghost var saved := graph.blocks == AllUnwired(omits, g) && AllReferencesFit(g) &&
        archive.Ahead(Items(BlockReferencesSaver(), g));
      var ids := AscendingKeys(graph.blocks.Keys);
      AllPending(graph.blocks, ids);
      if saved {
        KeptIsWired(omits, g);
        WiringBegins(g, graph.blocks, Strip(Kept(omits, g)), archive.bytes, archive.pos);
      }
      ok := LoadReferenceItems(graph, archive, ids, saved, g, Strip(Kept(omits, g)));
    }

    method LoadSection(archive: InArchive, ghost k: int, ghost s: Section) returns (ok: bool, key: int, loaded: Section)
      requires archive.Valid()
      modifies archive
      ensures archive.Valid()
      ensures old(SectionFits(k, s) && archive.Ahead(SavedSection(k, s))) ==>
                ok && key == k && loaded == s && archive.pos == old(archive.pos) + |SavedSection(k, s)|
    {
      hide At, Bytes32, SavedString;
      key, loaded := 0, Section(0, "", 0);
      ghost var saved := SectionFits(k, s) && archive.Ahead(SavedSection(k, s));
      if saved { archive.Split(Bytes32(k), Bytes32(s.id) + (SavedString(s.name) + Bytes32(s.characteristics))); }
      var id, name, characteristics;
      ok, key := archive.Load32(k);
      if !ok { return; }
      if saved { archive.Split(Bytes32(s.id), SavedString(s.name) + Bytes32(s.characteristics)); }
      ok, id := archive.Load32(s.id);
      if !ok { return; }
      if saved { archive.Split(SavedString(s.name), Bytes32(s.characteristics)); }
      ok, name := archive.LoadString(s.name);
      if !ok { return; }
      ok, characteristics := archive.Load32(s.characteristics);
      if !ok { return; }
      loaded := Section(id, name, characteristics);
    }

    method LoadSectionItems(archive: InArchive, count: nat, ghost saved: bool, ghost start: nat,
                            ghost sections: map<int, Section>)
      returns (ok: bool, loaded: map<int, Section>)
      requires archive.Valid()
      requires saved ==> count == |sections| && forall k :: k in sections ==> SectionFits(k, sections[k])
      requires saved ==> archive.pos == start && At(archive.bytes, start, Items(SectionSaver(), sections))
      modifies archive
      ensures archive.Valid()
      ensures saved ==> ok && loaded == sections && archive.pos == start + |Items(SectionSaver(), sections)|
    {
      hide At, Items, Loaded, SavedSection, SectionFits, Ascended;
      loaded := map[];
      ghost var f := SectionSaver();
      if saved { NoneLoaded(f, sections, sections, archive.bytes, start); }
      for i := 0 to count
        invariant archive.Valid()
        invariant saved ==> Loaded(f, sections, sections, archive.bytes, start, i, archive.pos, loaded)
      {
        ghost var k, s := 0, Section(0, "", 0);
        if saved {
          k := NextItem(f, sections, sections, archive.bytes, start, i, archive.pos, loaded);
          s := sections[k];
        }
        var key, found;
        ok, key, found := LoadSection(archive, k, s);
        if !ok { return; }
        // A section that is there already stays.
        if key !in loaded {
          loaded := loaded[key := found];
        }
      }
      if saved {
        AllLoaded(f, sections, sections, archive.bytes, start, archive.pos, loaded);
      }
      return true, loaded;
    }

    method LoadSections(archive: InArchive, ghost sections: map<int, Section>)
      returns (ok: bool, loaded: map<int, Section>)
      requires archive.Valid()
      modifies archive
      ensures archive.Valid()
      ensures old(SectionsFit(sections) && archive.Ahead(SavedSections(sections))) ==>
                ok && loaded == sections && archive.pos == old(archive.pos) + |SavedSections(sections)|
    {
      hide At, Bytes32, Items, SectionSaver, SectionFits;
      loaded := map[];
      ghost var saved := SectionsFit(sections) && archive.Ahead(SavedSections(sections));
      ghost var start := archive.pos + |Bytes32(|sections|)|;
      if saved { archive.Split(Bytes32(|sections|), Items(SectionSaver(), sections)); }
      var count;
      ok, count := archive.Load32(|sections|);
      if !ok { return; }
      ok, loaded := LoadSectionItems(archive, count, saved, start, sections);
    }

    /** Loads the image format; archives from before it was saved hold PE images. */
    method LoadImageFormat(version: nat, archive: InArchive, ghost format: nat) returns (ok: bool, loaded: nat)
      requires archive.Valid()
      modifies archive
      ensures archive.Valid()
      ensures version < IMAGE_FORMAT_VERSION ==> ok && loaded == PE_IMAGE && archive.pos == old(archive.pos)
      ensures old(version >= IMAGE_FORMAT_VERSION && format < 256 && archive.Ahead([Low8(format)])) ==>
                ok && loaded == format && archive.pos == old(archive.pos) + 1
    {
      loaded := PE_IMAGE;
      if version < IMAGE_FORMAT_VERSION {
        return true, PE_IMAGE;
      }
      ok, loaded := archive.LoadByte(Low8(format));
    }

    method LoadBlockGraphProperties(version: nat, archive: InArchive, ghost props: GraphProperties,
                                    ghost nextBlockId: nat)
      returns (ok: bool, loaded: GraphProperties, next: nat)
      requires archive.Valid()
      modifies archive
      ensures archive.Valid()
      ensures old(version >= IMAGE_FORMAT_VERSION && PropsFit(props, nextBlockId) &&
                archive.Ahead(SavedGraphProperties(props, nextBlockId))) ==>
                && ok && loaded == props && next == nextBlockId
                && archive.pos == old(archive.pos) + |SavedGraphProperties(props, nextBlockId)|
    {
      hide At, Bytes32, SavedSections, SectionsFit;
      loaded, next := GraphProperties(0, map[], 0), 0;
      ghost var saved := version >= IMAGE_FORMAT_VERSION && PropsFit(props, nextBlockId) &&
        archive.Ahead(SavedGraphProperties(props, nextBlockId));
      ghost var r3 := Bytes32(nextBlockId) + [Low8(props.imageFormat)];
      if saved { archive.Split(Bytes32(props.nextSectionId), SavedSections(props.sections) + r3); }
      var nextSectionId, sections, format;
      ok, nextSectionId := archive.Load32(props.nextSectionId);
      if !ok { return; }
      if saved { archive.Split(SavedSections(props.sections), r3); }
      ok, sections := LoadSections(archive, props.sections);
      if !ok { return; }
      if saved { archive.Split(Bytes32(nextBlockId), [Low8(props.imageFormat)]); }
      ok, next := archive.Load32(nextBlockId);
      if !ok { return; }
      ok, format := LoadImageFormat(version, archive, props.imageFormat);
      if !ok { return; }
      loaded := GraphProperties(nextSectionId, sections, format);
    }

    /** Loads the version, and how the graph was saved; both have to be supported. */
    method LoadHead(archive: InArchive, ghost om: Omissions) returns (ok: bool, version: nat)
      requires archive.Valid()
      modifies this, archive
      ensures archive.Valid()
      ensures ok <==> HeadSupported(archive.bytes, old(archive.pos))
      ensures ok ==>
        && archive.pos == old(archive.pos) + 12 && version == WordAt(archive.bytes, old(archive.pos))
        && dataMode == WordAt(archive.bytes, old(archive.pos) + 4)
        && omits == OmissionsOf(WordAt(archive.bytes, old(archive.pos) + 8))
      ensures old(archive.Ahead(SavedHead(om))) ==>
                && ok && version == VERSION && dataMode == OUTPUT_ALL_DATA && omits == om
                && archive.pos == old(archive.pos) + |SavedHead(om)|
    {
      hide At, Bytes32, Value32;
      ghost var saved := archive.Ahead(SavedHead(om));
      if saved { archive.Split(Bytes32(VERSION), Bytes32(OUTPUT_ALL_DATA) + Bytes32(om.Attributes())); }
      ok, version := archive.Load32(VERSION);
      if !ok { return; }
      if version < MIN_SUPPORTED_VERSION || version > VERSION {
        ok := false;
        return;
      }
      var attributes;
      if saved { archive.Split(Bytes32(OUTPUT_ALL_DATA), Bytes32(om.Attributes())); }
      ok, dataMode := archive.Load32(OUTPUT_ALL_DATA);
      if !ok { return; }
      ok, attributes := archive.Load32(om.Attributes());
      if !ok { return; }
      omits := OmissionsOf(attributes);
      if dataMode >= DATA_MODE_MAX || attributes >= SERIALIZER_ATTRIBUTES_MAX {
        ok := false;
        return;
      }
    }

    /** Loads what comes behind the head. */
    method LoadBody(graph: BlockGraph, version: nat, archive: InArchive, ghost props: GraphProperties,
                    ghost nextBlockId: nat, ghost g: Graph)
      returns (ok: bool, loaded: GraphProperties)
      requires archive.Valid() && graph.blocks == map[]
      modifies graph, archive
      ensures archive.Valid() && graph.Linked()
      ensures GraphSound(graph.blocks)
      ensures old(version == VERSION && dataMode == OUTPUT_ALL_DATA && GraphFits(omits, props, nextBlockId, g) &&
                Mirrored(g) && archive.Ahead(SavedBody(omits, props, nextBlockId, g))) ==>
                && ok && loaded == props && graph.nextBlockId == nextBlockId && graph.blocks == Kept(omits, g)
                && archive.pos == old(archive.pos) + |SavedBody(omits, props, nextBlockId, g)|
    {
      hide At, SavedGraphProperties, SavedBlocks, Items, BlockReferencesSaver, PropsFit, AllFit, AllReferencesFit,
        AllUnwired, Strip, Kept, Mirrored, WellSized, Unconnected;
      ghost var saved := version == VERSION && dataMode == OUTPUT_ALL_DATA && GraphFits(omits, props, nextBlockId, g) &&
        Mirrored(g) && archive.Ahead(SavedBody(omits, props, nextBlockId, g));
      ghost var references := Items(BlockReferencesSaver(), g);
      if saved { archive.Split(SavedGraphProperties(props, nextBlockId), SavedBlocks(omits, g) + references); }
      EmptyLinks(graph.blocks);
      var next;
      ok, loaded, next := LoadBlockGraphProperties(version, archive, props, nextBlockId);
      if !ok { return; }
      graph.nextBlockId := next;
      if saved { archive.Split(SavedBlocks(omits, g), references); }
      ok := LoadBlocks(graph, archive, g);
      UnconnectedLinks(graph.blocks);
      if !ok { return; }
      if saved { ClosedFits(g); }
      ok := LoadBlockGraphReferences(graph, archive, g);
      if saved {
        KeptMirrored(omits, g);
        MirrorIsUnique(graph.blocks, Kept(omits, g));
      }
    }

    /** Loads a block graph into an empty one. Where one was saved, it is there again: what has not been omitted
        of its blocks, with their references and, as these mirror them, their referrers. */
    method Load(graph: BlockGraph, archive: InArchive, ghost om: Omissions, ghost props: GraphProperties,
                ghost nextBlockId: nat, ghost g: Graph)
      returns (ok: bool, loaded: GraphProperties)
      requires archive.Valid() && graph.blocks == map[] && graph.nextBlockId == 0
      modifies this, graph, archive
      ensures archive.Valid() && graph.Linked()
      ensures GraphSound(graph.blocks) && (ok ==> HeadSupported(archive.bytes, old(archive.pos)))
      ensures old(GraphFits(om, props, nextBlockId, g) && Mirrored(g) &&
                archive.Ahead(SavedGraph(om, props, nextBlockId, g))) ==>
                && ok && loaded == props && graph.nextBlockId == nextBlockId && graph.blocks == Kept(om, g)
                && archive.pos == old(archive.pos) + |SavedGraph(om, props, nextBlockId, g)|
    {
      hide At, SavedHead, SavedBody, GraphFits, Mirrored, WellSized, Kept;
      loaded := GraphProperties(0, map[], 0);
      ghost var saved := archive.Ahead(SavedGraph(om, props, nextBlockId, g));
      if saved { archive.Split(SavedHead(om), SavedBody(om, props, nextBlockId, g)); }
      EmptyLinks(graph.blocks);
      var version;
      ok, version := LoadHead(archive, om);
      if !ok { return; }
      ok, loaded := LoadBody(graph, version, archive, props, nextBlockId, g);
    }
  }

  /** Loading what was saved gives the block graph back; all of it if nothing is omitted. */
  method SaveAndLoad(graph: BlockGraph, props: GraphProperties, omits: Omissions)
    returns (ok: bool, loaded: BlockGraph, loadedProps: GraphProperties)
    requires graph.Linked() && GraphFits(omits, props, graph.nextBlockId, graph.blocks)
    ensures ok && loadedProps == props && loaded.nextBlockId == graph.nextBlockId
    ensures loaded.blocks == Kept(omits, graph.blocks)
    ensures forall id :: id in graph.blocks ==> OnlyOmitted(omits, graph.blocks[id], loaded.blocks[id])
    ensures omits == Omissions(false, false) ==> loaded.blocks == graph.blocks
  {
    hide At, SavedGraph, GraphFits, Mirrored, WellSized, Kept;
    var saver := new BlockGraphSerializer(omits);
    var out := new OutArchive();
    saver.Save(graph, props, out);
    ghost var bytes := SavedGraph(omits, props, graph.nextBlockId, graph.blocks);
    WholeAt(bytes);
    assert out.bytes == [] + bytes == bytes;
    var loader := new BlockGraphSerializer(Omissions(false, false));
    var archive := new InArchive(out.bytes);
    loaded := new BlockGraph();
    ok, loadedProps := loader.Load(loaded, archive, omits, props, graph.nextBlockId, graph.blocks);
    KeptIsOmitted(omits, graph.blocks);
    if omits == Omissions(false, false) {
      NothingLost(omits, graph.blocks);
    }
  }
}
