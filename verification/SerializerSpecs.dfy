/** How the block graph serializer lays a block graph out in bytes. */
module SerializerSpecs {
  import opened Types
  import opened ByteStrings
  import opened Archives
  import opened GraphSpecs
  import opened OrderedMaps
  import opened SavedItems

  const VERSION: nat := 4
  const MIN_SUPPORTED_VERSION: nat := 2
  const IMAGE_FORMAT_VERSION: nat := 3

  const OUTPUT_OWNED_DATA: nat := 1
  const OUTPUT_ALL_DATA: nat := 2
  const DATA_MODE_MAX: nat := 3

  const SERIALIZER_ATTRIBUTES_MAX: nat := 4

  const BLOCK_ATTRIBUTES: nat := 20
  const BLOCK_ATTRIBUTES_MAX: nat := 0x10_0000
  const LABEL_ATTRIBUTES_MAX: nat := 0x400
  const REFERENCE_TYPE_MAX: nat := 14
  const MAXIMUM_REFERENCE_SIZE: nat := 4
  const PE_IMAGE: nat := 1

  /** The serializer's attributes: what it leaves out. */
  datatype Omissions = Omissions(strings: bool, labels: bool) {
    function Attributes(): (a: nat)
      ensures a < SERIALIZER_ATTRIBUTES_MAX
    {
      (if strings then 1 else 0) + (if labels then 2 else 0)
    }
  }

  function OmissionsOf(a: nat): Omissions { Omissions(a % 2 == 1, a / 2 % 2 == 1) }

  datatype Section = Section(id: nat, name: string, characteristics: nat)

  datatype GraphProperties = GraphProperties(nextSectionId: nat, sections: map<int, Section>, imageFormat: nat)

  // ----- attributes -----

  /** The attributes from the `k`th on as bits, the `k`th lowest. */
  function AttributeBits(attributes: set<Attribute>, k: nat): (v: nat)
    requires k <= BLOCK_ATTRIBUTES
    decreases BLOCK_ATTRIBUTES - k
  {
    if k == BLOCK_ATTRIBUTES then 0 else (if k in attributes then 1 else 0) + 2 * AttributeBits(attributes, k + 1)
  }

  function AttributesOf(v: nat, k: nat): set<Attribute>
    requires k <= BLOCK_ATTRIBUTES
    decreases BLOCK_ATTRIBUTES - k
  {
    if k == BLOCK_ATTRIBUTES then {} else (if v % 2 == 1 then {k} else {}) + AttributesOf(v / 2, k + 1)
  }

  function Mask(attributes: set<Attribute>): nat { AttributeBits(attributes, 0) }

  lemma {:induction false} AttributeInBits(attributes: set<Attribute>, k: nat, a: Attribute)
    requires k <= BLOCK_ATTRIBUTES
    ensures a in AttributesOf(AttributeBits(attributes, k), k) <==> k <= a < BLOCK_ATTRIBUTES && a in attributes
    decreases BLOCK_ATTRIBUTES - k
  {
    if k < BLOCK_ATTRIBUTES {
      var rest := AttributeBits(attributes, k + 1);
      AttributeInBits(attributes, k + 1, a);
      assert AttributeBits(attributes, k) / 2 == rest;
    }
  }

  lemma {:induction false} BitsBounded(attributes: set<Attribute>, k: nat)
    requires k <= BLOCK_ATTRIBUTES
    ensures AttributeBits(attributes, k) < Pow2(BLOCK_ATTRIBUTES - k)
    decreases BLOCK_ATTRIBUTES - k
  {
    if k < BLOCK_ATTRIBUTES {
      BitsBounded(attributes, k + 1);
    }
  }

  lemma {:induction false} MaskBounded(attributes: set<Attribute>)
    ensures Mask(attributes) < BLOCK_ATTRIBUTES_MAX
  {
    BitsBounded(attributes, 0);
    var n := 12;
    Pow2Plus8(n);
    Pow2Plus8(n - 8);
    assert Pow2(n - 8) == 16;
  }

  /** The bits of a set of attributes give it back. */
  lemma {:induction false} MaskRestores(attributes: set<Attribute>)
    requires forall a :: a in attributes ==> a < BLOCK_ATTRIBUTES
    ensures AttributesOf(Mask(attributes), 0) == attributes && Mask(attributes) < BLOCK_ATTRIBUTES_MAX
  {
    forall a: Attribute ensures a in AttributesOf(Mask(attributes), 0) <==> a in attributes {
      AttributeInBits(attributes, 0, a);
    }
    MaskBounded(attributes);
  }

  // ----- labels -----

  function SavedName(om: Omissions, s: string): seq<uint8> { if om.strings then [] else SavedString(s) }

  function KeptName(om: Omissions, s: string): string { if om.strings then "" else s }

  predicate NameFits(om: Omissions, s: string) { om.strings || FitsString(s) }

  function SavedLabel(om: Omissions, o: int, l: Label): seq<uint8>
  {
    VarInt(o) + (Bytes16(l.attributes) + SavedName(om, l.name))
  }

  predicate LabelFits(om: Omissions, o: int, l: Label)
  {
    FitsVarInt(o) && l.attributes < LABEL_ATTRIBUTES_MAX && NameFits(om, l.name)
  }

  /** How an item of the label map is saved. */
  ghost predicate IsLabelSaver(f: (int, Label) -> seq<uint8>, om: Omissions)
  {
    forall o: int, l: Label {:trigger SavedLabel(om, o, l)} :: f(o, l) == SavedLabel(om, o, l)
  }

  ghost function LabelSaver(om: Omissions): (f: (int, Label) -> seq<uint8>)
    ensures IsLabelSaver(f, om)
  {
    assert IsLabelSaver((o: int, l: Label) => SavedLabel(om, o, l), om);
    var f: (int, Label) -> seq<uint8> :| IsLabelSaver(f, om);
    f
  }

  ghost function SavedLabelMap(om: Omissions, labels: map<int, Label>): seq<uint8>
  {
    VarUint(|labels|) + Items(LabelSaver(om), labels)
  }

  ghost function SavedLabels(om: Omissions, labels: map<int, Label>): seq<uint8>
  {
    if om.labels then [] else SavedLabelMap(om, labels)
  }

  function KeptLabel(om: Omissions, l: Label): Label { l.(name := KeptName(om, l.name)) }

  ghost predicate AreKept(om: Omissions, labels: map<int, Label>, kept: map<int, Label>)
  {
    kept.Keys == labels.Keys && forall o :: o in labels ==> kept[o] == KeptLabel(om, labels[o])
  }

  /** What is left of the labels when they have been saved and loaded. */
  function KeptLabels(om: Omissions, labels: map<int, Label>): (kept: map<int, Label>)
    ensures !om.labels ==> AreKept(om, labels, kept)
  {
    if om.labels then map[] else map o | o in labels :: KeptLabel(om, labels[o])
  }

  ghost predicate LabelsFit(om: Omissions, labels: map<int, Label>)
  {
    om.labels || (|labels| < TWO_32 && forall o :: o in labels ==> LabelFits(om, o, labels[o]))
  }

  // ----- blocks -----

  const BLOCK_TYPE_MAX: nat := 2

  function KindByte(kind: BlockType): uint8
  {
    match kind
    case CodeBlock => 0
    case DataBlock => 1
    case BlockTypeMax => BLOCK_TYPE_MAX
  }

  function TypeOf(byte: nat): BlockType
  {
    if byte == 0 then CodeBlock else if byte == 1 then DataBlock else BlockTypeMax
  }

  function SavedShape(b: Block): seq<uint8> { [KindByte(b.kind)] + (VarUint(b.size) + VarUint(b.alignment)) }

  /** The source ranges of a block are not part of the model: none are saved. */
  function SavedPlace(b: Block): seq<uint8> { Bytes32(0) + (Bytes32(b.addr) + VarInt(b.section)) }

  function SavedNames(om: Omissions, b: Block): seq<uint8>
  {
    Bytes32(Mask(b.attributes)) + (SavedName(om, b.name) + SavedName(om, b.compilandName))
  }

  function SavedProperties(om: Omissions, b: Block): seq<uint8> { SavedShape(b) + (SavedPlace(b) + SavedNames(om, b)) }

  /** An invalid address is saved as the largest one. */
  predicate PropertiesFit(om: Omissions, b: Block)
  {
    && b.size < TWO_32 && b.alignment < TWO_32 && -1 <= b.addr < TWO_32 - 1 && FitsVarInt(b.section)
    && (forall a :: a in b.attributes ==> a < BLOCK_ATTRIBUTES)
    && NameFits(om, b.name) && NameFits(om, b.compilandName)
  }

  function SavedData(data: seq<uint8>): seq<uint8> { VarUint(|data|) + data }

  ghost function SavedBlock(om: Omissions, id: int, b: Block): seq<uint8>
  {
    Bytes32(id) + SavedContents(om, b)
  }

  ghost function SavedContents(om: Omissions, b: Block): seq<uint8>
  {
    SavedProperties(om, b) + (SavedLabels(om, b.labels) + SavedData(b.data))
  }

  ghost predicate BlockFits(om: Omissions, id: int, b: Block)
  {
    0 <= id < TWO_32 && PropertiesFit(om, b) && LabelsFit(om, b.labels) && |b.data| < TWO_32
  }

  ghost predicate AllFit(om: Omissions, g: Graph)
  {
    |g| < TWO_32 && forall id :: id in g ==> BlockFits(om, id, g[id])
  }

  /** How an item of the block map is saved. */
  ghost predicate IsBlockSaver(f: (int, Block) -> seq<uint8>, om: Omissions)
  {
    forall id: int, b: Block {:trigger SavedBlock(om, id, b)} :: f(id, b) == SavedBlock(om, id, b)
  }

  ghost function BlockSaver(om: Omissions): (f: (int, Block) -> seq<uint8>)
    ensures IsBlockSaver(f, om)
  {
    assert IsBlockSaver((id: int, b: Block) => SavedBlock(om, id, b), om);
    var f: (int, Block) -> seq<uint8> :| IsBlockSaver(f, om);
    f
  }

  /** A block with nothing but the properties, names included, of another. */
  function Bare(om: Omissions, b: Block): Block
  {
    Block(b.kind, b.size, b.alignment, b.addr, b.section, b.attributes,
          KeptName(om, b.name), KeptName(om, b.compilandName), map[], [], map[], {})
  }

  /** What is known of a block before its references. */
  function Unwired(om: Omissions, b: Block): Block
  {
    Bare(om, b).(labels := KeptLabels(om, b.labels), data := b.data)
  }

  /** What is left of a graph when it has been saved and loaded. */
  function Kept(om: Omissions, g: Graph): (h: Graph)
    ensures h.Keys == g.Keys
  {
    map id | id in g :: Unwired(om, g[id]).(references := g[id].references, referrers := g[id].referrers)
  }

  /** Block `k` is what is left of `b`: names are lost if strings are omitted, labels if labels are; nothing
      else is. */
  predicate OnlyOmitted(om: Omissions, b: Block, k: Block)
  {
    && k.(name := b.name, compilandName := b.compilandName, labels := b.labels) == b
    && (if om.strings then k.name == k.compilandName == "" else k.name == b.name && k.compilandName == b.compilandName)
    && (if om.labels then k.labels == map[]
        else k.labels.Keys == b.labels.Keys && forall o :: o in b.labels ==>
               && k.labels[o].attributes == b.labels[o].attributes
               && k.labels[o].name == if om.strings then "" else b.labels[o].name)
  }

  lemma {:induction false} KeptIsOmitted(om: Omissions, g: Graph)
    ensures forall id :: id in g ==> OnlyOmitted(om, g[id], Kept(om, g)[id])
  {
    forall id | id in g ensures OnlyOmitted(om, g[id], Kept(om, g)[id]) {
      var kept := KeptLabels(om, g[id].labels);
      assert Kept(om, g)[id].labels == kept;
    }
  }

  /** Nothing is lost when nothing is omitted. */
  lemma {:induction false} NothingLost(om: Omissions, g: Graph)
    requires om == Omissions(false, false)
    ensures Kept(om, g) == g
  {
    forall id | id in g ensures Kept(om, g)[id] == g[id] {
      var labels := g[id].labels;
      assert forall o :: o in labels ==> KeptLabel(om, labels[o]) == labels[o];
      assert KeptLabels(om, labels) == labels;
    }
  }

  /** No block refers to another, and none is referred to. */
  predicate Unconnected(g: Graph) { forall id :: id in g ==> g[id].references == map[] && g[id].referrers == {} }

  ghost predicate IsUnwired(om: Omissions, g: Graph, h: Graph)
  {
    h.Keys == g.Keys && forall id :: id in g ==> h[id] == Unwired(om, g[id])
  }

  /** A graph before its references. */
  function AllUnwired(om: Omissions, g: Graph): (h: Graph)
    ensures IsUnwired(om, g, h)
  {
    map id | id in g :: Unwired(om, g[id])
  }

  /** Omitting names and labels leaves the mirror as it is. */
  lemma {:induction false} KeptMirrored(om: Omissions, g: Graph)
    requires Mirrored(g)
    ensures Mirrored(Kept(om, g))
  {
    var h := Kept(om, g);
    forall b: BlockId, o: int, c: BlockId ensures Refers(h, b, o, c) <==> Refers(g, b, o, c) {
    }
    forall b: BlockId, o: int | b in h && o in h[b].references ensures h[b].references[o].referenced in h {
      assert g[b].references[o].referenced in g;
    }
    forall c: BlockId, b: BlockId, o: int | c in h ensures (b, o) in h[c].referrers <==> Refers(h, b, o, c) {
      assert (b, o) in g[c].referrers <==> Refers(g, b, o, c);
    }
  }

  // ----- references -----

  /** The type and the size share a byte. */
  function KindAndSize(r: Reference): uint8 { Low8(r.kind * 16 + r.size) }

  function KindOf(both: uint8): nat { both / 16 }

  function SizeOf(both: uint8): nat { both % 16 }

  lemma {:induction false} Nibbles(r: Reference)
    requires r.kind < 16 && r.size < 16
    ensures KindOf(KindAndSize(r)) == r.kind && SizeOf(KindAndSize(r)) == r.size
  {
    assert KindAndSize(r) == r.kind * 16 + r.size;
  }

  /** The base is saved as its distance from the offset. */
  function SavedTarget(r: Reference): seq<uint8>
  {
    Bytes32(r.referenced) + (VarInt(r.offset) + VarInt(r.base - r.offset))
  }

  function SavedReference(o: int, r: Reference): seq<uint8> { VarInt(o) + ([KindAndSize(r)] + SavedTarget(r)) }

  predicate ReferenceFits(o: int, r: Reference)
  {
    && FitsVarInt(o) && r.kind < REFERENCE_TYPE_MAX && 0 < r.size <= MAXIMUM_REFERENCE_SIZE
    && 0 <= r.referenced < TWO_32 && FitsVarInt(r.offset) && FitsVarInt(r.base - r.offset)
  }

  /** How an item of the reference map is saved. */
  ghost predicate IsReferenceSaver(f: (int, Reference) -> seq<uint8>)
  {
    forall o: int, r: Reference {:trigger SavedReference(o, r)} :: f(o, r) == SavedReference(o, r)
  }

  ghost function ReferenceSaver(): (f: (int, Reference) -> seq<uint8>)
    ensures IsReferenceSaver(f)
  {
    assert IsReferenceSaver((o: int, r: Reference) => SavedReference(o, r));
    var f: (int, Reference) -> seq<uint8> :| IsReferenceSaver(f);
    f
  }

  ghost function SavedReferences(references: ReferenceMap): seq<uint8>
  {
    Bytes32(|references|) + Items(ReferenceSaver(), references)
  }

  ghost predicate ReferencesFit(references: ReferenceMap)
  {
    |references| < TWO_32 && forall o :: o in references ==> ReferenceFits(o, references[o])
  }

  ghost function SavedReferencesOf(id: int, b: Block): seq<uint8> { SavedReferences(b.references) }

  /** How the references of the blocks are saved. */
  ghost predicate IsBlockReferencesSaver(f: (int, Block) -> seq<uint8>)
  {
    forall id: int, b: Block {:trigger SavedReferencesOf(id, b)} :: f(id, b) == SavedReferencesOf(id, b)
  }

  ghost function BlockReferencesSaver(): (f: (int, Block) -> seq<uint8>)
    ensures IsBlockReferencesSaver(f)
  {
    assert IsBlockReferencesSaver((id: int, b: Block) => SavedReferencesOf(id, b));
    var f: (int, Block) -> seq<uint8> :| IsBlockReferencesSaver(f);
    f
  }

  // ----- what is loaded, whatever the bytes -----

  predicate LabelsSound(labels: map<int, Label>)
  {
    forall o :: o in labels ==> labels[o].attributes < LABEL_ATTRIBUTES_MAX
  }

  predicate ReferencesSound(references: ReferenceMap)
  {
    forall o :: o in references ==>
      references[o].kind < REFERENCE_TYPE_MAX && 0 < references[o].size <= MAXIMUM_REFERENCE_SIZE
  }

  /** All labels and references are of a kind that there is. */
  ghost predicate GraphSound(g: Graph)
  {
    forall id :: id in g ==> LabelsSound(g[id].labels) && ReferencesSound(g[id].references)
  }

  lemma {:induction false} StaysSound(g: Graph, id: BlockId, h: Graph)
    requires GraphSound(g) && OnlyReferences(g, id, h) && ReferencesSound(h[id].references)
    ensures GraphSound(h)
  {
    hide LabelsSound, ReferencesSound;
    assert h.Keys == Strip(h).Keys;
    forall c | c in h ensures LabelsSound(h[c].labels) && ReferencesSound(h[c].references) {
      assert Strip(h)[c].labels == h[c].labels && Strip(h)[c].references == h[c].references;
      assert Strip(g)[c].labels == g[c].labels && Strip(g)[c].references == g[c].references;
    }
  }

  /** The type of a block is one that there is. */
  predicate KindSupported(b: seq<uint8>, p: nat) { p < |b| && b[p] <= BLOCK_TYPE_MAX }

  function WordAt(b: seq<uint8>, p: nat): nat
    requires p + 4 <= |b|
  {
    Value32(b[p..p + 4])
  }

  /** The attributes of a block come from a word that has no other bits. */
  ghost predicate AttributesSupported(b: seq<uint8>, attributes: set<Attribute>)
  {
    exists p: nat :: p + 4 <= |b| && WordAt(b, p) < BLOCK_ATTRIBUTES_MAX && attributes == AttributesOf(WordAt(b, p), 0)
  }

  /** One more reference, at an offset that had none, with the kind and size that the byte at `p` says. */
  predicate OneMoreReference(was: ReferenceMap, now: ReferenceMap, b: seq<uint8>, o: int, p: nat)
  {
    && o !in was && o in now && now == was[o := now[o]] && p < |b|
    && now[o].kind == KindOf(b[p]) && now[o].size == SizeOf(b[p])
  }

  /** The head is one that can be loaded: the version, the data mode and the attributes are supported. */
  predicate HeadSupported(b: seq<uint8>, p: nat)
  {
    && p + 12 <= |b| && MIN_SUPPORTED_VERSION <= WordAt(b, p) <= VERSION
    && WordAt(b, p + 4) < DATA_MODE_MAX && WordAt(b, p + 8) < SERIALIZER_ATTRIBUTES_MAX
  }

  /** The graph differs from an earlier one in the references of a block only, referrers aside. */
  ghost predicate OnlyReferences(g: Graph, id: BlockId, h: Graph)
  {
    id in g && id in h && Strip(h) == WithReferences(Strip(g), id, h[id].references)
  }

  lemma {:induction false} OnlyReferencesSet(g: Graph, id: BlockId, refs: ReferenceMap, h: Graph)
    requires id in g && Strip(h) == WithReferences(Strip(g), id, refs)
    ensures OnlyReferences(g, id, h) && h[id].references == refs
  {
    assert id in Strip(h) && Strip(h)[id].references == h[id].references;
  }

  lemma {:induction false} OnlyReferencesRefl(g: Graph, id: BlockId)
    requires id in g
    ensures OnlyReferences(g, id, g)
  {
    var k := Strip(g);
    assert k[id].references == g[id].references;
    assert k[id := k[id].(references := k[id].references)] == k;
  }

  lemma {:induction false} OnlyReferencesTrans(g: Graph, id: BlockId, h: Graph, k: Graph)
    requires OnlyReferences(g, id, h) && OnlyReferences(h, id, k)
    ensures OnlyReferences(g, id, k)
  {
  }

  lemma {:induction false} SameBlocks(g: Graph, id: BlockId, h: Graph)
    requires OnlyReferences(g, id, h)
    ensures h.Keys == g.Keys
    ensures forall c :: c in g && c != id ==> h[c].references == g[c].references
  {
    assert h.Keys == Strip(h).Keys;
    forall c | c in g && c != id ensures h[c].references == g[c].references {
      assert Strip(h)[c] == Strip(g)[c];
    }
  }

  /** The references lead to blocks of a graph. */
  ghost predicate ReferInto(references: ReferenceMap, g: Graph)
  {
    forall o :: o in references ==> references[o].referenced in g
  }

  ghost predicate AllReferencesFit(g: Graph)
  {
    forall id :: id in g ==> ReferencesFit(g[id].references) && ReferInto(g[id].references, g)
  }

  lemma {:induction false} ReferencesOfFit(g: Graph, id: BlockId, h: Graph)
    requires AllReferencesFit(g) && id in g && h.Keys == g.Keys
    ensures ReferencesFit(g[id].references) && ReferInto(g[id].references, h)
    ensures BlockReferencesSaver()(id, g[id]) == SavedReferences(g[id].references)
  {
    assert SavedReferencesOf(id, g[id]) == SavedReferences(g[id].references);
  }

  /** The blocks listed from position `i` on have no references yet. */
  ghost predicate Pending(g: Graph, ids: seq<int>, i: nat)
  {
    forall j :: i <= j < |ids| ==> ids[j] in g.Keys && g[ids[j]].references == map[]
  }

  lemma {:induction false} AllPending(g: Graph, ids: seq<int>)
    requires Unconnected(g) && forall x :: x in ids ==> x in g.Keys
    ensures Pending(g, ids, 0)
  {
    forall j | 0 <= j < |ids| ensures ids[j] in g.Keys && g[ids[j]].references == map[] {
      var id := ids[j];
      assert id in ids;
      assert id in g;
    }
  }

  lemma {:induction false} NextPending(g: Graph, ids: seq<int>, i: nat)
    requires Pending(g, ids, i) && i < |ids|
    ensures ids[i] in g.Keys && g[ids[i]].references == map[]
  {
  }

  lemma {:induction false} StillPending(g: Graph, ids: seq<int>, i: nat, h: Graph)
    requires Ascending(ids) && i < |ids| && Pending(g, ids, i)
    requires OnlyReferences(g, ids[i], h)
    ensures h.Keys == g.Keys && Pending(h, ids, i + 1)
  {
    SameBlocks(g, ids[i], h);
  }

  /** `kept` is `unwired` with the references of `g`. */
  ghost predicate WiredAs(g: Graph, unwired: Graph, kept: Graph)
  {
    && unwired.Keys == g.Keys && kept.Keys == g.Keys
    && forall id :: id in g ==> kept[id] == unwired[id].(references := g[id].references)
  }

  lemma {:induction false} KeptIsWired(om: Omissions, g: Graph)
    ensures WiredAs(g, AllUnwired(om, g), Strip(Kept(om, g))) && Strip(AllUnwired(om, g)) == AllUnwired(om, g)
  {
    var h, kept := AllUnwired(om, g), Strip(Kept(om, g));
    assert kept.Keys == Kept(om, g).Keys;
    forall id | id in g
      ensures kept[id] == h[id].(references := g[id].references) && Strip(h)[id] == h[id]
    {
      assert Kept(om, g)[id] == Unwired(om, g[id]).(references := g[id].references, referrers := g[id].referrers);
    }
  }

  lemma {:induction false} MergeUpdate<V>(a: map<int, V>, t: map<int, V>, k: int, v: V)
    ensures (a + t)[k := v] == a + t[k := v]
  {
  }

  lemma {:induction false} MergeAll<V>(a: map<int, V>, b: map<int, V>)
    requires a.Keys == b.Keys
    ensures a + b == b && a + map[] == a
  {
  }

  /** One more block has its references: `s` and `t` are the graph without referrers, before and after. */
  lemma {:induction false} OneMoreWired(g: Graph, unwired: Graph, kept: Graph, done: map<int, Block>, s: Graph,
                                        id: BlockId, t: Graph)
    requires WiredAs(g, unwired, kept) && id in g && id !in done && s == unwired + done
    requires id in s && t == WithReferences(s, id, g[id].references)
    ensures t == unwired + done[id := kept[id]]
  {
    MergeUpdate(unwired, done, id, kept[id]);
  }

  /** The references of the first `i` blocks have been loaded; `done` are the blocks that have theirs. */
  ghost predicate Wiring(g: Graph, unwired: Graph, kept: Graph, data: seq<uint8>, start: nat, i: nat, pos: nat,
                         h: Graph, done: Graph)
  {
    && WiredAs(g, unwired, kept) && AllReferencesFit(g) && h.Keys == g.Keys && Strip(h) == unwired + done
    && Loaded(BlockReferencesSaver(), g, kept, data, start, i, pos, done)
  }

  lemma {:induction false} WiringBegins(g: Graph, unwired: Graph, kept: Graph, data: seq<uint8>, start: nat)
    requires WiredAs(g, unwired, kept) && AllReferencesFit(g) && Strip(unwired) == unwired
    requires At(data, start, Items(BlockReferencesSaver(), g))
    ensures Wiring(g, unwired, kept, data, start, 0, start, unwired, map[])
  {
    hide AllReferencesFit, At, Items, BlockReferencesSaver, Loaded;
    NoneLoaded(BlockReferencesSaver(), g, kept, data, start);
    MergeAll(unwired, kept);
  }

  /** The next block has its references ahead. */
  lemma {:induction false} WiringAhead(g: Graph, unwired: Graph, kept: Graph, data: seq<uint8>, start: nat, i: nat,
                                       pos: nat, h: Graph, done: Graph)
    returns (id: BlockId)
    requires Wiring(g, unwired, kept, data, start, i, pos, h, done) && i < |g|
    ensures id == Ascended(g.Keys)[i] && id in g && id in h && id in kept
    ensures ReferencesFit(g[id].references) && ReferInto(g[id].references, h)
    ensures At(data, pos, SavedReferences(g[id].references))
  {
    hide At, Items, Loaded, BlockReferencesSaver, SavedReferences, ReferencesFit, ReferInto, AllReferencesFit, Strip;
    hide Ascended;
    id := NextItem(BlockReferencesSaver(), g, kept, data, start, i, pos, done);
    ReferencesOfFit(g, id, h);
  }

  lemma {:induction false} WiringStep(g: Graph, unwired: Graph, kept: Graph, data: seq<uint8>, start: nat, i: nat,
                                      pos: nat, h: Graph, done: Graph, id: BlockId, k: Graph)
    requires Wiring(g, unwired, kept, data, start, i, pos, h, done) && i < |g|
    requires id == Ascended(g.Keys)[i] && id in g && id in kept
    requires OnlyReferences(h, id, k) && k[id].references == g[id].references
    ensures Wiring(g, unwired, kept, data, start, i + 1, pos + |SavedReferences(g[id].references)|, k,
                   done[id := kept[id]])
  {
    hide At, Items, Loaded, BlockReferencesSaver, SavedReferences, ReferencesFit, ReferInto, AllReferencesFit, Strip;
    hide Ascended, WiredAs;
    var key := NextItem(BlockReferencesSaver(), g, kept, data, start, i, pos, done);
    ReferencesOfFit(g, id, h);
    SameBlocks(h, id, k);
    OneMoreWired(g, unwired, kept, done, Strip(h), id, Strip(k));
  }

  lemma {:induction false} WiringEnds(g: Graph, unwired: Graph, kept: Graph, data: seq<uint8>, start: nat, pos: nat,
                                      h: Graph, done: Graph)
    requires Wiring(g, unwired, kept, data, start, |g|, pos, h, done)
    ensures Strip(h) == kept && pos == start + |Items(BlockReferencesSaver(), g)|
  {
    hide Items, Loaded, BlockReferencesSaver, AllReferencesFit, Strip;
    AllLoaded(BlockReferencesSaver(), g, kept, data, start, pos, done);
    MergeAll(unwired, kept);
  }

  // ----- the graph -----

  function SavedSection(id: int, s: Section): seq<uint8>
  {
    Bytes32(id) + (Bytes32(s.id) + (SavedString(s.name) + Bytes32(s.characteristics)))
  }

  predicate SectionFits(id: int, s: Section)
  {
    0 <= id < TWO_32 && s.id < TWO_32 && FitsString(s.name) && s.characteristics < TWO_32
  }

  /** How an item of the section map is saved. */
  ghost predicate IsSectionSaver(f: (int, Section) -> seq<uint8>)
  {
    forall id: int, s: Section {:trigger SavedSection(id, s)} :: f(id, s) == SavedSection(id, s)
  }

  ghost function SectionSaver(): (f: (int, Section) -> seq<uint8>)
    ensures IsSectionSaver(f)
  {
    assert IsSectionSaver((id: int, s: Section) => SavedSection(id, s));
    var f: (int, Section) -> seq<uint8> :| IsSectionSaver(f);
    f
  }

  ghost function SavedSections(sections: map<int, Section>): seq<uint8>
  {
    Bytes32(|sections|) + Items(SectionSaver(), sections)
  }

  ghost predicate SectionsFit(sections: map<int, Section>)
  {
    |sections| < TWO_32 && forall k :: k in sections ==> SectionFits(k, sections[k])
  }

  ghost function SavedGraphProperties(props: GraphProperties, nextBlockId: nat): seq<uint8>
  {
    Bytes32(props.nextSectionId) +
      (SavedSections(props.sections) + (Bytes32(nextBlockId) + [Low8(props.imageFormat)]))
  }

  ghost function SavedBlocks(om: Omissions, g: Graph): seq<uint8> { Bytes32(|g|) + Items(BlockSaver(om), g) }

  /** What comes behind the head of an archive. */
  ghost function SavedBody(om: Omissions, props: GraphProperties, nextBlockId: nat, g: Graph): seq<uint8>
  {
    SavedGraphProperties(props, nextBlockId) + (SavedBlocks(om, g) + Items(BlockReferencesSaver(), g))
  }

  function SavedHead(om: Omissions): seq<uint8>
  {
    Bytes32(VERSION) + (Bytes32(OUTPUT_ALL_DATA) + Bytes32(om.Attributes()))
  }

  /** A block graph saved with all its data. */
  ghost function SavedGraph(om: Omissions, props: GraphProperties, nextBlockId: nat, g: Graph): seq<uint8>
  {
    SavedHead(om) + SavedBody(om, props, nextBlockId, g)
  }

  /** Every number fits the width that the serializer gives it. */
  ghost predicate GraphFits(om: Omissions, props: GraphProperties, nextBlockId: nat, g: Graph)
  {
    PropsFit(props, nextBlockId) && AllFit(om, g) && forall id :: id in g ==> ReferencesFit(g[id].references)
  }

  ghost predicate PropsFit(props: GraphProperties, nextBlockId: nat)
  {
    props.nextSectionId < TWO_32 && SectionsFit(props.sections) && props.imageFormat < 256 && nextBlockId < TWO_32
  }

  lemma {:induction false} ClosedFits(g: Graph)
    requires Mirrored(g) && forall id :: id in g ==> ReferencesFit(g[id].references)
    ensures AllReferencesFit(g)
  {
    forall id | id in g ensures ReferencesFit(g[id].references) && ReferInto(g[id].references, g) {
      assert forall o :: o in g[id].references ==> g[id].references[o].referenced in g;
    }
  }

  lemma {:induction false} UnconnectedLinks(g: Graph)
    requires Unconnected(g)
    ensures Mirrored(g) && WellSized(g)
  {
  }

  lemma {:induction false} EmptyLinks(g: Graph)
    requires g == map[]
    ensures Mirrored(g) && WellSized(g)
  {
  }

  lemma {:induction false} WholeAt(data: seq<uint8>)
    ensures At(data, 0, data)
  {
  }
}
