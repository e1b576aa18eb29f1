/** The block graph: blocks with bytes, labels and references, where every reference is mirrored by
    a referrer record in the block it leads to.

    Blocks live in the graph's own map from ids to blocks; a block id stands for a block pointer. */
module GraphSpecs {
  import opened Types
  import opened ByteStrings

  /** The type of a block. The last one is not a type of any block, but the bound of the others; a loaded block can
      have it. */
  datatype BlockType = CodeBlock | DataBlock | BlockTypeMax

  /** An attribute of a block: the position of its bit. */
  type Attribute = nat

  const GAP_BLOCK: Attribute := 1
  const PADDING_BLOCK: Attribute := 4
  const BUILT_BY_SYZYGY: Attribute := 7

  datatype Label = Label(name: string, attributes: nat)

  type Referrer = (BlockId, int)

  datatype Block = Block(
    kind: BlockType, size: nat, alignment: nat, addr: int, section: int, attributes: set<Attribute>,
    name: string, compilandName: string,
    labels: map<int, Label>, data: seq<uint8>, references: ReferenceMap, referrers: set<Referrer>)

  type Graph = map<BlockId, Block>

  // ----- the mirror invariant -----

  /** References lead to blocks of the graph. */
  ghost predicate Closed(g: Graph)
  {
    forall b, o :: b in g && o in g[b].references ==> g[b].references[o].referenced in g
  }

  /** Block `b` has a reference at offset `o` that leads to block `c`. */
  predicate Refers(g: Graph, b: BlockId, o: int, c: BlockId)
  {
    b in g && o in g[b].references && g[b].references[o].referenced == c
  }

  /** A reference at (b, o) leads to c exactly when (b, o) is among the referrers of c. */
  ghost predicate Mirrored(g: Graph)
  {
    && Closed(g)
    && forall c: BlockId, b: BlockId, o: int :: c in g ==> ((b, o) in g[c].referrers <==> Refers(g, b, o, c))
  }

  /** References occupy at least one byte, as every valid pairing of kind and size does. */
  ghost predicate WellSized(g: Graph)
  {
    forall b, o :: b in g && o in g[b].references ==> g[b].references[o].size > 0
  }

  /** The graph without its referrer records. */
  function Strip(g: Graph): (f: Graph)
    ensures f.Keys == g.Keys
  {
    map b | b in g :: g[b].(referrers := {})
  }

  /** In a mirrored graph the referrer records carry no information of their own: they are
      determined by the references. */
  lemma {:induction false} MirrorIsUnique(g: Graph, h: Graph)
    requires Mirrored(g) && Mirrored(h) && Strip(g) == Strip(h)
    ensures g == h
  {
    forall b | b in g
      ensures b in h && g[b] == h[b]
    {
      assert b in Strip(g) && Strip(g)[b] == Strip(h)[b];
      forall r: Referrer
        ensures r in g[b].referrers <==> r in h[b].referrers
      {
        assert r == (r.0, r.1);
        assert (r.0, r.1) in g[b].referrers <==> Refers(g, r.0, r.1, b);
        assert (r.0, r.1) in h[b].referrers <==> Refers(h, r.0, r.1, b);
        assert r.0 in Strip(g) ==> Strip(g)[r.0].references == g[r.0].references;
        assert r.0 in Strip(h) ==> Strip(h)[r.0].references == h[r.0].references;
      }
    }
    assert g.Keys == Strip(g).Keys == Strip(h).Keys == h.Keys;
  }

  // ----- in-place updates -----

  function WithReferences(f: Graph, b: BlockId, refs: ReferenceMap): Graph
    requires b in f
  {
    f[b := f[b].(references := refs)]
  }

  function WithReferrers(g: Graph, b: BlockId, referrers: set<Referrer>): Graph
    requires b in g
  {
    g[b := g[b].(referrers := referrers)]
  }

  /** The graph after the back reference of the reference at (b, o), if there is one, is erased. */
  function Unlinked(g: Graph, b: BlockId, o: int): Graph
    requires b in g && (o in g[b].references ==> g[b].references[o].referenced in g)
  {
    if o in g[b].references then
      var c := g[b].references[o].referenced;
      WithReferrers(g, c, g[c].referrers - {(b, o)})
    else g
  }

  /** What setting a reference does to the graph, update by update. */
  function ReferenceSet(g: Graph, b: BlockId, o: int, ref: Reference): Graph
    requires b in g && ref.referenced in g && (o in g[b].references ==> g[b].references[o].referenced in g)
  {
    var g1 := Unlinked(g, b, o);
    var g2 := WithReferences(g1, b, g1[b].references[o := ref]);
    WithReferrers(g2, ref.referenced, g2[ref.referenced].referrers + {(b, o)})
  }

  function ReferenceRemoved(g: Graph, b: BlockId, o: int): Graph
    requires b in g && (o in g[b].references ==> g[b].references[o].referenced in g)
  {
    var g1 := Unlinked(g, b, o);
    WithReferences(g1, b, g1[b].references - {o})
  }

  /** The three updates seen from one block. */
  lemma {:induction false} ReferenceSetAt(g: Graph, b: BlockId, o: int, ref: Reference, c: BlockId)
    requires Closed(g) && b in g && ref.referenced in g && c in g
    ensures var h := ReferenceSet(g, b, o, ref);
      && h.Keys == g.Keys
      && h[c] == g[c].(references := if c == b then g[c].references[o := ref] else g[c].references,
                       referrers := g[c].referrers - (if Refers(g, b, o, c) then {(b, o)} else {})
                                                   + (if c == ref.referenced then {(b, o)} else {}))
  {
  }

  lemma {:induction false} ReferenceRemovedAt(g: Graph, b: BlockId, o: int, c: BlockId)
    requires Closed(g) && b in g && c in g
    ensures var h := ReferenceRemoved(g, b, o);
      && h.Keys == g.Keys
      && h[c] == g[c].(references := if c == b then g[c].references - {o} else g[c].references,
                       referrers := g[c].referrers - (if Refers(g, b, o, c) then {(b, o)} else {}))
  {
  }

  /** Updating the referrers in place keeps the mirror. */
  lemma {:induction false} SetKeepsMirror(g: Graph, b: BlockId, o: int, ref: Reference)
    requires Mirrored(g) && b in g && ref.referenced in g
    ensures Mirrored(ReferenceSet(g, b, o, ref))
  {
    var h := ReferenceSet(g, b, o, ref);
    forall b': BlockId, o': int | b' in h && o' in h[b'].references
      ensures h[b'].references[o'].referenced in h
    {
      ReferenceSetAt(g, b, o, ref, b');
    }
    forall c: BlockId, b': BlockId, o': int | c in h
      ensures (b', o') in h[c].referrers <==> Refers(h, b', o', c)
    {
      ReferenceSetAt(g, b, o, ref, c);
      if b' in g { ReferenceSetAt(g, b, o, ref, b'); }
      assert (b', o') in g[c].referrers <==> Refers(g, b', o', c);
    }
  }

  lemma {:induction false} SetStrips(g: Graph, b: BlockId, o: int, ref: Reference)
    requires Closed(g) && b in g && ref.referenced in g
    ensures Strip(ReferenceSet(g, b, o, ref)) == WithReferences(Strip(g), b, g[b].references[o := ref])
  {
    hide ReferenceSet, Strip;
    var h := ReferenceSet(g, b, o, ref);
    ReferenceSetAt(g, b, o, ref, b);
    forall c | c in g
      ensures c in h && Strip(h)[c] == WithReferences(Strip(g), b, g[b].references[o := ref])[c]
    {
      ReferenceSetAt(g, b, o, ref, c);
      StripAt(h, c);
      StripAt(g, c);
    }
  }

  lemma {:induction false} SetKeepsSizes(g: Graph, b: BlockId, o: int, ref: Reference)
    requires Closed(g) && b in g && ref.referenced in g && ref.size > 0
    requires WellSized(g)
    ensures WellSized(ReferenceSet(g, b, o, ref))
  {
    var h := ReferenceSet(g, b, o, ref);
    forall c, o' | c in h && o' in h[c].references ensures h[c].references[o'].size > 0 {
      ReferenceSetAt(g, b, o, ref, c);
    }
  }

  lemma {:induction false} RemoveKeepsMirror(g: Graph, b: BlockId, o: int)
    requires Mirrored(g) && b in g
    ensures Mirrored(ReferenceRemoved(g, b, o))
  {
    var h := ReferenceRemoved(g, b, o);
    forall b': BlockId, o': int | b' in h && o' in h[b'].references
      ensures h[b'].references[o'].referenced in h
    {
      ReferenceRemovedAt(g, b, o, b');
    }
    forall c: BlockId, b': BlockId, o': int | c in h
      ensures (b', o') in h[c].referrers <==> Refers(h, b', o', c)
    {
      ReferenceRemovedAt(g, b, o, c);
      if b' in g { ReferenceRemovedAt(g, b, o, b'); }
      assert (b', o') in g[c].referrers <==> Refers(g, b', o', c);
    }
  }

  lemma {:induction false} RemoveStrips(g: Graph, b: BlockId, o: int)
    requires Closed(g) && b in g
    ensures Strip(ReferenceRemoved(g, b, o)) == WithReferences(Strip(g), b, g[b].references - {o})
  {
    var h := ReferenceRemoved(g, b, o);
    forall c | c in g
      ensures c in h && Strip(h)[c] == WithReferences(Strip(g), b, g[b].references - {o})[c]
    {
      ReferenceRemovedAt(g, b, o, c);
    }
  }

  lemma {:induction false} RemoveKeepsSizes(g: Graph, b: BlockId, o: int)
    requires Closed(g) && b in g
    requires WellSized(g)
    ensures WellSized(ReferenceRemoved(g, b, o))
  {
    var h := ReferenceRemoved(g, b, o);
    forall c, o' | c in h && o' in h[c].references ensures h[c].references[o'].size > 0 {
      ReferenceRemovedAt(g, b, o, c);
    }
  }

  /** Taking a disconnected block away keeps the mirror of the others. */
  lemma {:induction false} DropKeepsMirror(g: Graph, id: BlockId)
    requires Mirrored(g) && id in g && g[id].references == map[] && g[id].referrers == {}
    ensures Mirrored(g - {id})
  {
    var h := g - {id};
    forall b: BlockId, o: int | b in h && o in h[b].references
      ensures h[b].references[o].referenced in h
    {
      var c := g[b].references[o].referenced;
      assert Refers(g, b, o, c);
      assert (b, o) in g[c].referrers;
    }
    forall c: BlockId, b: BlockId, o: int | c in h
      ensures (b, o) in h[c].referrers <==> Refers(h, b, o, c)
    {
      assert (b, o) in g[c].referrers <==> Refers(g, b, o, c);
    }
  }

  lemma {:induction false} ReferencesTwice(f: Graph, b: BlockId, r1: ReferenceMap, r2: ReferenceMap)
    requires b in f
    ensures WithReferences(WithReferences(f, b, r1), b, r2) == WithReferences(f, b, r2)
    ensures WithReferences(f, b, f[b].references) == f
  {
  }

  /** A loop that works on the references of block `b` only: what they are at some point, and after
      the next change. */
  lemma {:induction false} ReferencesNow(f: Graph, g: Graph, b: BlockId, refs: ReferenceMap)
    requires b in f && Strip(g) == WithReferences(f, b, refs)
    ensures b in g && g[b].references == refs
  {
    assert b in Strip(g);
  }

  lemma {:induction false} ReferencesNext(f: Graph, g: Graph, h: Graph, b: BlockId, refs: ReferenceMap,
                                          next: ReferenceMap)
    requires b in f && Strip(g) == WithReferences(f, b, refs) && b in Strip(g)
    requires Strip(h) == WithReferences(Strip(g), b, next)
    ensures Strip(h) == WithReferences(f, b, next)
  {
    ReferencesTwice(f, b, refs, next);
  }

  // ----- changing the targets of some references -----

  /** The graph where the references listed in `done` are changed by `change`. */
  function Retarget(f: Graph, done: set<Referrer>, change: Reference -> Reference): Graph
  {
    map b | b in f :: f[b].(references := RetargetBlock(f[b].references, b, done, change))
  }

  function RetargetBlock(refs: ReferenceMap, b: BlockId, done: set<Referrer>, change: Reference -> Reference)
    : ReferenceMap
  {
    map o | o in refs :: if (b, o) in done then change(refs[o]) else refs[o]
  }

  lemma {:induction false} RetargetNone(f: Graph, change: Reference -> Reference)
    ensures Retarget(f, {}, change) == f
  {
    forall b | b in f ensures Retarget(f, {}, change)[b] == f[b] {
      assert RetargetBlock(f[b].references, b, {}, change) == f[b].references;
    }
  }

  lemma {:induction false} RetargetStep(f: Graph, done: set<Referrer>, change: Reference -> Reference, b: BlockId,
                                        o: int)
    requires b in f && o in f[b].references && (b, o) !in done
    ensures var g := Retarget(f, done, change);
      && g[b].references[o] == f[b].references[o]
      && WithReferences(g, b, g[b].references[o := change(f[b].references[o])])
           == Retarget(f, done + {(b, o)}, change)
  {
    var g := Retarget(f, done, change);
    var h := Retarget(f, done + {(b, o)}, change);
    forall c | c in f && c != b ensures h[c] == g[c] {
      assert RetargetBlock(f[c].references, c, done + {(b, o)}, change)
          == RetargetBlock(f[c].references, c, done, change);
    }
    assert h[b].references == g[b].references[o := change(f[b].references[o])];
  }

  lemma {:induction false} StripAt(g: Graph, b: BlockId)
    requires b in g
    ensures Strip(g)[b] == g[b].(referrers := {})
  {
  }

  /** One step of a loop that changes the references of a graph `g` one by one; `h` is the graph in
      the middle of that loop. */
  lemma {:induction false} ChangeStep(g: Graph, h: Graph, done: set<Referrer>, change: Reference -> Reference,
                                      b: BlockId, o: int)
    requires Strip(h) == Retarget(Strip(g), done, change)
    requires b in g && o in g[b].references && (b, o) !in done
    ensures b in h && o in h[b].references && h[b].references[o] == g[b].references[o]
    ensures WithReferences(Strip(h), b, h[b].references[o := change(g[b].references[o])])
      == Retarget(Strip(g), done + {(b, o)}, change)
  {
    assert b in Strip(g) && Strip(h).Keys == h.Keys;
    RetargetStep(Strip(g), done, change, b, o);
    StripAt(g, b);
    StripAt(h, b);
  }

  /** Such a loop changes nothing but references. */
  lemma {:induction false} ChangeKeepsRest(g: Graph, h: Graph, done: set<Referrer>, change: Reference -> Reference,
                                           b: BlockId)
    requires Strip(h) == Retarget(Strip(g), done, change) && b in g
    ensures b in h && h[b].(references := map[], referrers := {}) == g[b].(references := map[], referrers := {})
  {
    assert b in Strip(g) && Strip(h).Keys == h.Keys;
    StripAt(g, b);
    StripAt(h, b);
  }

  // ----- shifting offsets -----

  /** Where a position goes when everything from `at` on moves by `d`. */
  function Shift(x: int, at: int, d: int): int { if x >= at then x + d else x }

  /** Nothing is in the bytes that a shift to the left overwrites. */
  predicate GapFree(keys: set<int>, at: int, d: int)
  {
    d < 0 ==> forall k :: k in keys ==> !(at + d <= k < at)
  }

  /** Where a position came from. */
  function Unshift(x: int, at: int, d: int): int { if x - d >= at then x - d else x }

  function ShiftSet(keys: set<int>, at: int, d: int): set<int>
  {
    (set k | k in keys && k < at) + (set k | k in keys && k >= at :: k + d)
  }

  function ShiftKeys<T>(m: map<int, T>, at: int, d: int): map<int, T>
    requires GapFree(m.Keys, at, d)
  {
    map x | x in ShiftSet(m.Keys, at, d) :: m[Unshift(x, at, d)]
  }

  function Get<T>(m: map<int, T>, x: int): Option<T> { if x in m then Some(m[x]) else None }

  lemma {:induction false} SameItems<T>(a: map<int, T>, b: map<int, T>)
    requires forall x :: Get(a, x) == Get(b, x)
    ensures a == b
  {
    forall x ensures x in a <==> x in b { assert Get(a, x) == Get(b, x); }
    forall x | x in a ensures a[x] == b[x] { assert Get(a, x) == Get(b, x); }
  }

  /** What is at `x` after a shift. */
  function ShiftLookup<T>(m: map<int, T>, at: int, d: int, x: int): Option<T>
  {
    if x - d >= at then Get(m, x - d) else if x >= at then None else Get(m, x)
  }

  lemma {:induction false} ShiftSetAt(keys: set<int>, at: int, d: int, x: int)
    requires GapFree(keys, at, d)
    ensures x in ShiftSet(keys, at, d) <==> if x - d >= at then x - d in keys else x < at && x in keys
  {
    if x - d in keys && x - d >= at { assert (x - d) + d == x; }
  }

  lemma {:induction false} ShiftKeysAt<T>(m: map<int, T>, at: int, d: int, x: int)
    requires GapFree(m.Keys, at, d)
    ensures Get(ShiftKeys(m, at, d), x) == ShiftLookup(m, at, d, x)
  {
    ShiftSetAt(m.Keys, at, d, x);
  }

  function ShiftTarget(r: Reference, self: BlockId, at: int, d: int): Reference
  {
    if r.referenced == self && r.offset >= at then r.(offset := r.offset + d, base := r.base + d) else r
  }

  function ShiftTargets(refs: ReferenceMap, self: BlockId, at: int, d: int): ReferenceMap
  {
    map o | o in refs :: ShiftTarget(refs[o], self, at, d)
  }

  function VisibleKeys(refs: ReferenceMap, done: set<int>, at: int): set<int>
  {
    set k | k in refs && (k < at || k in done)
  }

  /** The references of a block whose positions from `at` on are being moved: those in front of `at`
      are there, those behind are there once they are in `done`. */
  function PartlyShifted(refs: ReferenceMap, done: set<int>, self: BlockId, at: int, d: int): ReferenceMap
    requires GapFree(refs.Keys, at, d)
  {
    map x | x in ShiftSet(VisibleKeys(refs, done, at), at, d) ::
      var k := Unshift(x, at, d);
      if k in done then ShiftTarget(refs[k], self, at, d) else refs[k]
  }

  lemma {:induction false} PartlyShiftedAt(refs: ReferenceMap, done: set<int>, self: BlockId, at: int, d: int, x: int)
    requires GapFree(refs.Keys, at, d)
    ensures Get(PartlyShifted(refs, done, self, at, d), x) ==
      if x - d >= at then
        if x - d in refs && x - d in done then Some(ShiftTarget(refs[x - d], self, at, d)) else None
      else if x < at && x in refs then
        Some(if x in done then ShiftTarget(refs[x], self, at, d) else refs[x])
      else None
  {
    ShiftSetAt(VisibleKeys(refs, done, at), at, d, x);
  }

  lemma {:induction false} PartlyShiftedStep(refs: ReferenceMap, done: set<int>, self: BlockId, at: int, d: int, k: int)
    requires GapFree(refs.Keys, at, d) && k in refs
    ensures PartlyShifted(refs, done, self, at, d)[Shift(k, at, d) := ShiftTarget(refs[k], self, at, d)]
      == PartlyShifted(refs, done + {k}, self, at, d)
  {
    var now := PartlyShifted(refs, done, self, at, d)[Shift(k, at, d) := ShiftTarget(refs[k], self, at, d)];
    forall x ensures Get(now, x) == Get(PartlyShifted(refs, done + {k}, self, at, d), x) {
      PartlyShiftedAt(refs, done, self, at, d, x);
      PartlyShiftedAt(refs, done + {k}, self, at, d, x);
    }
    SameItems(now, PartlyShifted(refs, done + {k}, self, at, d));
  }

  lemma {:induction false} FullyShifted(refs: ReferenceMap, self: BlockId, at: int, d: int)
    requires GapFree(refs.Keys, at, d)
    ensures PartlyShifted(refs, refs.Keys, self, at, d) == ShiftKeys(ShiftTargets(refs, self, at, d), at, d)
  {
    forall x
      ensures Get(PartlyShifted(refs, refs.Keys, self, at, d), x)
        == Get(ShiftKeys(ShiftTargets(refs, self, at, d), at, d), x)
    {
      PartlyShiftedAt(refs, refs.Keys, self, at, d, x);
      ShiftKeysAt(ShiftTargets(refs, self, at, d), at, d, x);
    }
    SameItems(PartlyShifted(refs, refs.Keys, self, at, d), ShiftKeys(ShiftTargets(refs, self, at, d), at, d));
  }

  /** What the shift does to block `c`: in `self` itself labels and references move, and in every
      block the targets of references into `self`. */
  function ShiftedBlock(x: Block, c: BlockId, self: BlockId, at: int, d: int): Block
    requires c == self ==> GapFree(x.labels.Keys, at, d) && GapFree(x.references.Keys, at, d)
  {
    var targets := ShiftTargets(x.references, self, at, d);
    if c == self then x.(labels := ShiftKeys(x.labels, at, d), references := ShiftKeys(targets, at, d))
    else x.(references := targets)
  }

  /** The graph after everything from `at` on in block `self` has moved by `d`. */
  function ShiftedGraph(f: Graph, self: BlockId, at: int, d: int): Graph
    requires self in f && GapFree(f[self].labels.Keys, at, d) && GapFree(f[self].references.Keys, at, d)
  {
    map c | c in f :: ShiftedBlock(f[c], c, self, at, d)
  }

  /** All references of other blocks into `self` shifted, and nothing else. */
  function OthersShifted(f: Graph, self: BlockId, at: int, d: int): Graph
  {
    map b | b in f :: if b == self then f[b] else f[b].(references := ShiftTargets(f[b].references, self, at, d))
  }

  // ----- bytes -----

  function Zeros(n: nat): (z: seq<uint8>)
    ensures |z| == n && forall i :: 0 <= i < n ==> z[i] == 0
  {
    seq(n, i => 0)
  }

  /** The bytes of a block, reading those that are not allocated as zero. */
  function Contents(b: Block): seq<uint8>
    requires |b.data| <= b.size
  {
    b.data + Zeros(b.size - |b.data|)
  }

  /** Allocated data cut or extended with zeros. */
  function Resized(data: seq<uint8>, n: nat): (r: seq<uint8>)
    ensures |r| == n
  {
    if n <= |data| then data[..n] else data + Zeros(n - |data|)
  }

  function InsertedBytes(data: seq<uint8>, offset: nat, n: nat): seq<uint8>
  {
    if offset < |data| then data[..offset] + Zeros(n) + data[offset..] else data
  }

  function InsertedData(data: seq<uint8>, offset: nat, n: nat, allocate: bool): seq<uint8>
  {
    var d := InsertedBytes(data, offset, n);
    if allocate && |d| < offset + n then Resized(d, offset + n) else d
  }

  function RemovedBytes(data: seq<uint8>, offset: nat, n: nat): seq<uint8>
  {
    if offset + n < |data| then data[..offset] + data[offset + n..]
    else if offset < |data| then data[..offset]
    else data
  }

  /** What inserting `n` bytes at `offset` of block `b` does to block `c`. */
  function InsertedBlock(x: Block, c: BlockId, b: BlockId, offset: nat, n: nat, allocate: bool): Block
  {
    var s := ShiftedBlock(x, c, b, offset, n);
    if c == b then s.(size := x.size + n, data := InsertedData(x.data, offset, n, allocate)) else s
  }

  /** What inserting `n` bytes at `offset` of a block does to the graph. */
  function InsertedGraph(f: Graph, b: BlockId, offset: nat, n: nat, allocate: bool): Graph
    requires b in f
  {
    map c | c in f :: InsertedBlock(f[c], c, b, offset, n, allocate)
  }

  predicate HasLabelIn(b: Block, lo: int, hi: int) { exists k :: k in b.labels && lo <= k < hi }

  predicate HasReferenceIn(b: Block, lo: int, hi: int)
  {
    exists o :: o in b.references && o < hi && o + b.references[o].size > lo
  }

  predicate AddressesRange(g: Graph, r: Referrer, lo: int, hi: int)
  {
    && r.0 in g && r.1 in g[r.0].references
    && g[r.0].references[r.1].offset < hi
    && g[r.0].references[r.1].offset + g[r.0].references[r.1].size > lo
  }

  /** Some reference to block `c` covers bytes between `lo` and `hi`. */
  ghost predicate IsReferencedIn(g: Graph, c: BlockId, lo: int, hi: int)
  {
    exists b: BlockId, o: int :: Refers(g, b, o, c) && AddressesRange(g, (b, o), lo, hi)
  }

  /** When bytes may be removed: no label, reference source or reference target is among them. */
  ghost predicate Removable(g: Graph, b: BlockId, offset: nat, n: nat)
    requires b in g
  {
    n == 0 || (!HasLabelIn(g[b], offset, offset + n) && !HasReferenceIn(g[b], offset, offset + n)
               && !IsReferencedIn(g, b, offset, offset + n))
  }

  lemma {:induction false} RemovableGapFree(g: Graph, b: BlockId, offset: nat, n: nat)
    requires b in g && Removable(g, b, offset, n) && WellSized(g)
    ensures GapFree(g[b].labels.Keys, offset + n, 0 - n) && GapFree(g[b].references.Keys, offset + n, 0 - n)
  {
  }

  /** What is left of a size of 32 bits; removing more than there is wraps around. */
  function SizeLeft(size: nat, n: nat): nat
  {
    if n <= size then size - n else (size - n) % TWO_32
  }

  function GapCut(f: Graph, b: BlockId, offset: nat, n: nat): Graph
    requires b in f
  {
    f[b := f[b].(size := SizeLeft(f[b].size, n), data := RemovedBytes(f[b].data, offset, n))]
  }

  function RoomMade(f: Graph, b: BlockId, offset: nat, n: nat): Graph
    requires b in f
  {
    f[b := f[b].(size := f[b].size + n, data := InsertedBytes(f[b].data, offset, n))]
  }

  function DataResized(f: Graph, b: BlockId, n: nat): Graph
    requires b in f
  {
    f[b := f[b].(data := Resized(f[b].data, n))]
  }

  function ClosedBlock(x: Block, c: BlockId, b: BlockId, offset: nat, n: nat): Block
    requires c == b ==>
      GapFree(x.labels.Keys, offset + n, 0 - n) && GapFree(x.references.Keys, offset + n, 0 - n)
  {
    var s := ShiftedBlock(x, c, b, offset + n, 0 - n);
    if c == b then s.(size := SizeLeft(x.size, n), data := RemovedBytes(x.data, offset, n)) else s
  }

  function GapClosed(f: Graph, b: BlockId, offset: nat, n: nat): Graph
    requires b in f
    requires GapFree(f[b].labels.Keys, offset + n, 0 - n) && GapFree(f[b].references.Keys, offset + n, 0 - n)
  {
    map c | c in f :: ClosedBlock(f[c], c, b, offset, n)
  }

  /** What removing `n` bytes at `offset` of a block does to the graph. */
  ghost function RemovedGraph(f: Graph, b: BlockId, offset: nat, n: nat): Graph
    requires b in f && Removable(f, b, offset, n) && WellSized(f)
  {
    RemovableGapFree(f, b, offset, n);
    GapClosed(f, b, offset, n)
  }

  // ----- transferring referrers -----

  function Moved(r: Reference, newBlock: BlockId, offset: int): Reference
  {
    r.(referenced := newBlock, offset := r.offset + offset, base := r.base + offset)
  }

  function MoveTo(newBlock: BlockId, offset: int): Reference -> Reference
  {
    r => Moved(r, newBlock, offset)
  }

  /** The referrers that a transfer redirects. */
  function Transferable(g: Graph, self: BlockId, skipInternal: bool): set<Referrer>
    requires self in g
  {
    set r | r in g[self].referrers && !(skipInternal && r.0 == self)
  }

  /** The redirected reference stays within the new block, which matters for code blocks only. */
  predicate TransferOneFits(g: Graph, r: Referrer, self: BlockId, offset: int, newBlock: BlockId)
    requires self in g && newBlock in g
  {
    g[self].kind == CodeBlock && r.0 in g && r.1 in g[r.0].references ==>
      0 <= g[r.0].references[r.1].offset + offset <= g[newBlock].size
  }

  predicate TransferFits(g: Graph, self: BlockId, offset: int, newBlock: BlockId, skipInternal: bool)
    requires self in g && newBlock in g
  {
    forall r :: r in Transferable(g, self, skipInternal) ==> TransferOneFits(g, r, self, offset, newBlock)
  }

  lemma {:induction false} ReferrerHasReference(g: Graph, c: BlockId, b: BlockId, o: int)
    requires Mirrored(g) && c in g && (b, o) in g[c].referrers
    ensures Refers(g, b, o, c)
  {
  }

  /** The transfer loop has `todo` left to visit. */
  ghost predicate Transferring(g: Graph, h: Graph, self: BlockId, offset: int, newBlock: BlockId, skipInternal: bool,
                               todo: set<Referrer>)
    requires self in g && newBlock in g
  {
    && todo <= g[self].referrers
    && Strip(h) == Retarget(Strip(g), Transferable(g, self, skipInternal) - todo, MoveTo(newBlock, offset))
    && forall r :: r in Transferable(g, self, skipInternal) && r !in todo ==>
         TransferOneFits(g, r, self, offset, newBlock)
  }

  lemma {:induction false} TransferBegins(g: Graph, self: BlockId, offset: int, newBlock: BlockId, skipInternal: bool)
    requires self in g && newBlock in g
    ensures Transferring(g, g, self, offset, newBlock, skipInternal, g[self].referrers)
  {
    assert Transferable(g, self, skipInternal) - g[self].referrers == {};
    RetargetNone(Strip(g), MoveTo(newBlock, offset));
  }

  lemma {:induction false} TransferVisits(g: Graph, h: Graph, self: BlockId, offset: int, newBlock: BlockId,
                                          skipInternal: bool, todo: set<Referrer>, r: Referrer)
    requires Mirrored(g) && self in g && newBlock in g && r in todo
    requires Transferring(g, h, self, offset, newBlock, skipInternal, todo)
    ensures Refers(h, r.0, r.1, self) && self in h && newBlock in h
    ensures h[self].kind == g[self].kind && h[newBlock].size == g[newBlock].size
    ensures Refers(g, r.0, r.1, self) && h[r.0].references[r.1] == g[r.0].references[r.1]
  {
    assert r == (r.0, r.1);
    ReferrerHasReference(g, self, r.0, r.1);
    var done := Transferable(g, self, skipInternal) - todo;
    ChangeStep(g, h, done, MoveTo(newBlock, offset), r.0, r.1);
    ChangeKeepsRest(g, h, done, MoveTo(newBlock, offset), self);
    ChangeKeepsRest(g, h, done, MoveTo(newBlock, offset), newBlock);
  }

  lemma {:induction false} TransferSkips(g: Graph, h: Graph, self: BlockId, offset: int, newBlock: BlockId,
                                         todo: set<Referrer>, r: Referrer)
    requires self in g && newBlock in g && r in todo && r.0 == self
    requires Transferring(g, h, self, offset, newBlock, true, todo)
    ensures Transferring(g, h, self, offset, newBlock, true, todo - {r})
  {
    assert Transferable(g, self, true) - todo == Transferable(g, self, true) - (todo - {r});
  }

  lemma {:induction false} TransferAdvances(g: Graph, h: Graph, k: Graph, self: BlockId, offset: int, newBlock: BlockId,
                         skipInternal: bool, todo: set<Referrer>, r: Referrer)
    requires self in g && newBlock in g && r in todo && !(skipInternal && r.0 == self)
    requires Transferring(g, h, self, offset, newBlock, skipInternal, todo)
    requires Refers(g, r.0, r.1, self) && Refers(h, r.0, r.1, self)
    requires h[r.0].references[r.1] == g[r.0].references[r.1]
    requires TransferOneFits(g, r, self, offset, newBlock)
    requires Strip(k) == WithReferences(Strip(h), r.0,
      h[r.0].references[r.1 := Moved(h[r.0].references[r.1], newBlock, offset)])
    ensures Transferring(g, k, self, offset, newBlock, skipInternal, todo - {r})
  {
    var all := Transferable(g, self, skipInternal);
    assert r == (r.0, r.1);
    assert (all - todo) + {r} == all - (todo - {r});
    ChangeStep(g, h, all - todo, MoveTo(newBlock, offset), r.0, r.1);
  }

  lemma {:induction false} TransferFails(g: Graph, h: Graph, self: BlockId, offset: int, newBlock: BlockId,
                                         skipInternal: bool, todo: set<Referrer>, r: Referrer)
    requires self in g && newBlock in g && r in todo && !(skipInternal && r.0 == self)
    requires Transferring(g, h, self, offset, newBlock, skipInternal, todo)
    requires !TransferOneFits(g, r, self, offset, newBlock)
    requires forall q :: q in todo && q.0 == r.0 ==> r.1 <= q.1
    ensures !TransferFits(g, self, offset, newBlock, skipInternal)
    ensures StopsAt(g, h, self, offset, newBlock, skipInternal, Transferable(g, self, skipInternal) - todo, r)
  {
    var all := Transferable(g, self, skipInternal);
    assert r in all;
    assert all - todo < all;
  }

  /** A transfer that fails stops at a referrer whose reference would leave the new block. Some referrers have been
      redirected by then, among them all that are in front of it in the same block. */
  ghost predicate StopsAt(g: Graph, h: Graph, self: BlockId, offset: int, newBlock: BlockId, skipInternal: bool,
                          done: set<Referrer>, r: Referrer)
    requires self in g && newBlock in g
  {
    var all := Transferable(g, self, skipInternal);
    && done < all && r in all && r !in done && !TransferOneFits(g, r, self, offset, newBlock)
    && (forall q :: q in done ==> TransferOneFits(g, q, self, offset, newBlock))
    && (forall q :: q in all && q.0 == r.0 && q.1 < r.1 ==> q in done)
    && Strip(h) == Retarget(Strip(g), done, MoveTo(newBlock, offset))
  }

  lemma {:induction false} TransferEnds(g: Graph, h: Graph, self: BlockId, offset: int, newBlock: BlockId,
                                        skipInternal: bool)
    requires self in g && newBlock in g
    requires Transferring(g, h, self, offset, newBlock, skipInternal, {})
    ensures TransferFits(g, self, offset, newBlock, skipInternal)
    ensures Strip(h) == Retarget(Strip(g), Transferable(g, self, skipInternal), MoveTo(newBlock, offset))
  {
    assert Transferable(g, self, skipInternal) - {} == Transferable(g, self, skipInternal);
  }

  // ----- progress of the shifting loops -----

  function ShiftBy(self: BlockId, at: int, d: int): Reference -> Reference
  {
    r => ShiftTarget(r, self, at, d)
  }

  /** The loop over the referrers of `self` has `todo` left to visit. */
  ghost predicate ShiftingReferrers(g: Graph, h: Graph, self: BlockId, at: int, d: int, todo: set<Referrer>)
    requires self in g
  {
    && todo <= g[self].referrers
    && Strip(h) == Retarget(Strip(g), OtherReferrers(g, self) - todo, ShiftBy(self, at, d))
  }

  function OtherReferrers(g: Graph, self: BlockId): set<Referrer>
    requires self in g
  {
    set r | r in g[self].referrers && r.0 != self
  }

  lemma {:induction false} ShiftingBegins(g: Graph, self: BlockId, at: int, d: int)
    requires self in g
    ensures ShiftingReferrers(g, g, self, at, d, g[self].referrers)
  {
    assert OtherReferrers(g, self) - g[self].referrers == {};
    RetargetNone(Strip(g), ShiftBy(self, at, d));
  }

  lemma {:induction false} ShiftingVisits(g: Graph, h: Graph, self: BlockId, at: int, d: int, todo: set<Referrer>,
                                          r: Referrer)
    requires Mirrored(g) && self in g && r in todo
    requires ShiftingReferrers(g, h, self, at, d, todo)
    ensures Refers(h, r.0, r.1, self) && self in h
    ensures Refers(g, r.0, r.1, self) && h[r.0].references[r.1] == g[r.0].references[r.1]
  {
    assert r == (r.0, r.1);
    ReferrerHasReference(g, self, r.0, r.1);
    var all := OtherReferrers(g, self);
    ChangeStep(g, h, all - todo, ShiftBy(self, at, d), r.0, r.1);
    ChangeKeepsRest(g, h, all - todo, ShiftBy(self, at, d), self);
  }

  lemma {:induction false} ShiftingPasses(g: Graph, h: Graph, self: BlockId, at: int, d: int, todo: set<Referrer>,
                                          r: Referrer)
    requires self in g && r in todo
    requires ShiftingReferrers(g, h, self, at, d, todo)
    requires Refers(g, r.0, r.1, self) && Refers(h, r.0, r.1, self)
    requires h[r.0].references[r.1] == g[r.0].references[r.1]
    requires r.0 == self || g[r.0].references[r.1].offset < at
    ensures ShiftingReferrers(g, h, self, at, d, todo - {r})
  {
    var all := OtherReferrers(g, self);
    if r.0 == self {
      assert all - todo == all - (todo - {r});
    } else {
      var refs := h[r.0].references;
      assert refs[r.1 := refs[r.1]] == refs;
      StripAt(h, r.0);
      ReferencesTwice(Strip(h), r.0, refs, refs);
      ShiftingAdvances(g, h, h, self, at, d, todo, r);
    }
  }

  lemma {:induction false} ShiftingAdvances(g: Graph, h: Graph, k: Graph, self: BlockId, at: int, d: int,
                                            todo: set<Referrer>, r: Referrer)
    requires self in g && r in todo && r.0 != self
    requires ShiftingReferrers(g, h, self, at, d, todo)
    requires Refers(g, r.0, r.1, self) && Refers(h, r.0, r.1, self)
    requires h[r.0].references[r.1] == g[r.0].references[r.1]
    requires Strip(k) == WithReferences(Strip(h), r.0,
      h[r.0].references[r.1 := ShiftTarget(h[r.0].references[r.1], self, at, d)])
    ensures ShiftingReferrers(g, k, self, at, d, todo - {r})
  {
    assert r == (r.0, r.1);
    var all := OtherReferrers(g, self);
    assert (all - todo) + {r} == all - (todo - {r});
    ChangeStep(g, h, all - todo, ShiftBy(self, at, d), r.0, r.1);
  }

  lemma {:induction false} ShiftingEnds(g: Graph, h: Graph, self: BlockId, at: int, d: int)
    requires Mirrored(g) && self in g && ShiftingReferrers(g, h, self, at, d, {})
    ensures Strip(h) == OthersShifted(Strip(g), self, at, d)
  {
    var all := OtherReferrers(g, self);
    assert all - {} == all;
    forall b | b in g
      ensures Retarget(Strip(g), all, ShiftBy(self, at, d))[b] == OthersShifted(Strip(g), self, at, d)[b]
    {
      StripAt(g, b);
      var refs := g[b].references;
      forall o | o in refs
        ensures RetargetBlock(refs, b, all, ShiftBy(self, at, d))[o]
          == if b == self then refs[o] else ShiftTarget(refs[o], self, at, d)
      {
        assert (b, o) in g[self].referrers <==> Refers(g, b, o, self);
      }
      assert RetargetBlock(refs, b, all, ShiftBy(self, at, d))
          == if b == self then refs else ShiftTargets(refs, self, at, d);
    }
  }

  function Before(refs: ReferenceMap, at: int): ReferenceMap
  {
    map k | k in refs && k < at :: refs[k]
  }

  /** The references that are left while those behind `at` are being removed. */
  function Unmoved(refs: ReferenceMap, at: int, moved: set<int>): ReferenceMap
  {
    map k | k in refs && (k < at || k in moved) :: refs[k]
  }

  lemma {:induction false} UnmovedBegins(refs: ReferenceMap, at: int)
    ensures Unmoved(refs, at, set k | k in refs && k >= at) == refs
    ensures Unmoved(refs, at, {}) == Before(refs, at)
  {
  }

  lemma {:induction false} UnmovedStep(refs: ReferenceMap, at: int, moved: set<int>, k: int)
    requires k >= at
    ensures Unmoved(refs, at, moved) - {k} == Unmoved(refs, at, moved - {k})
  {
  }

  lemma {:induction false} NothingShifted(refs: ReferenceMap, self: BlockId, at: int, d: int)
    requires GapFree(refs.Keys, at, d)
    ensures PartlyShifted(refs, {}, self, at, d) == Before(refs, at)
  {
  }

  /** The mirror does not depend on sizes, bytes and labels. */
  lemma {:induction false} SameLinks(g: Graph, h: Graph)
    requires Mirrored(g) && WellSized(g) && g.Keys == h.Keys
    requires forall b :: b in g ==> g[b].references == h[b].references && g[b].referrers == h[b].referrers
    ensures Mirrored(h) && WellSized(h)
  {
    forall c: BlockId, b: BlockId, o: int | c in h
      ensures (b, o) in h[c].referrers <==> Refers(h, b, o, c)
    {
      assert (b, o) in g[c].referrers <==> Refers(g, b, o, c);
    }
  }

  lemma {:induction false} SameStrip(g: Graph, h: Graph, b: BlockId, size: nat, data: seq<uint8>)
    requires b in g && h == g[b := g[b].(size := size, data := data)]
    ensures Strip(h) == Strip(g)[b := Strip(g)[b].(size := size, data := data)]
  {
  }

  /** Moving labels, then the references of the block, then the targets of other blocks' references
      is moving everything. */
  lemma {:induction false} ShiftComposes(g: Graph, h: Graph, b: BlockId, at: int, d: int)
    requires b in g && GapFree(g[b].labels.Keys, at, d) && GapFree(g[b].references.Keys, at, d)
    requires h == g[b := g[b].(labels := ShiftKeys(g[b].labels, at, d))]
    ensures var refs := ShiftKeys(ShiftTargets(g[b].references, b, at, d), at, d);
      OthersShifted(WithReferences(Strip(h), b, refs), b, at, d) == ShiftedGraph(Strip(g), b, at, d)
  {
  }

  lemma {:induction false} ShiftByZero(f: Graph, b: BlockId, at: int)
    requires b in f
    ensures ShiftedGraph(f, b, at, 0) == f
  {
    forall c | c in f ensures ShiftedBlock(f[c], c, b, at, 0) == f[c] {
      var refs := f[c].references;
      assert forall o :: o in refs ==> ShiftTarget(refs[o], b, at, 0) == refs[o];
      assert ShiftTargets(refs, b, at, 0) == refs;
      ShiftKeysByZero(refs, at);
      ShiftKeysByZero(f[c].labels, at);
    }
  }

  lemma {:induction false} ShiftKeysByZero<T>(m: map<int, T>, at: int)
    ensures ShiftKeys(m, at, 0) == m
  {
    forall x | x in m.Keys ensures x in ShiftSet(m.Keys, at, 0) {
      if x >= at { assert x + 0 == x; }
    }
    assert ShiftKeys(m, at, 0).Keys == m.Keys;
  }

  lemma {:induction false} InsertNothing(f: Graph, b: BlockId, offset: nat)
    requires b in f
    ensures InsertedGraph(f, b, offset, 0, false) == f
  {
    ShiftByZero(f, b, offset);
    var data := f[b].data;
    if offset < |data| { assert data[..offset] + Zeros(0) + data[offset..] == data; }
    forall c | c in f ensures InsertedBlock(f[c], c, b, offset, 0, false) == f[c] {
      assert ShiftedGraph(f, b, offset, 0)[c] == f[c];
    }
  }

  lemma {:induction false} InsertAllocates(f: Graph, g: Graph, b: BlockId, offset: nat, n: nat, allocate: bool)
    requires b in f && Strip(g) == InsertedGraph(f, b, offset, n, false)
    ensures b in g
    ensures allocate && |g[b].data| < offset + n ==>
      DataResized(Strip(g), b, offset + n) == InsertedGraph(f, b, offset, n, allocate)
    ensures !(allocate && |g[b].data| < offset + n) ==> Strip(g) == InsertedGraph(f, b, offset, n, allocate)
  {
    assert b in Strip(g);
    StripAt(g, b);
  }

  lemma {:induction false} InsertComposes(f: Graph, g: Graph, b: BlockId, offset: nat, n: nat)
    requires b in f && Strip(g) == ShiftedGraph(f, b, offset, n)
    ensures b in g
    ensures RoomMade(Strip(g), b, offset, n) == InsertedGraph(f, b, offset, n, false)
  {
    assert b in Strip(g);
    StripAt(g, b);
  }

  lemma {:induction false} StripRemovable(g: Graph, b: BlockId, offset: nat, n: nat)
    requires b in g && WellSized(g)
    ensures Removable(g, b, offset, n) <==> Removable(Strip(g), b, offset, n)
    ensures WellSized(Strip(g))
  {
    StripAt(g, b);
    forall c: BlockId, o: int
      ensures Refers(g, c, o, b) <==> Refers(Strip(g), c, o, b)
      ensures AddressesRange(g, (c, o), offset, offset + n) <==> AddressesRange(Strip(g), (c, o), offset, offset + n)
    {
      if c in g { StripAt(g, c); }
    }
  }

  lemma {:induction false} RemoveComposes(f: Graph, g: Graph, b: BlockId, offset: nat, n: nat)
    requires b in f
    requires GapFree(f[b].labels.Keys, offset + n, 0 - n) && GapFree(f[b].references.Keys, offset + n, 0 - n)
    requires Strip(g) == ShiftedGraph(f, b, offset + n, 0 - n)
    ensures b in g
    ensures GapCut(Strip(g), b, offset, n) == GapClosed(f, b, offset, n)
  {
    assert b in Strip(g);
    StripAt(g, b);
  }

  lemma {:induction false} RemoveNothing(f: Graph, b: BlockId, offset: nat)
    requires b in f && WellSized(f)
    ensures Removable(f, b, offset, 0) && RemovedGraph(f, b, offset, 0) == f
  {
    ShiftByZero(f, b, offset);
    var data := f[b].data;
    if offset < |data| { assert data[..offset] + data[offset..] == data; }
    forall c | c in f ensures ClosedBlock(f[c], c, b, offset, 0) == f[c] {
      assert ShiftedGraph(f, b, offset, 0)[c] == f[c];
    }
  }
}
