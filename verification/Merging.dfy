/** Moving whole blocks into another block: what that does to references, stated on graphs without
    referrer records, and that it keeps every reference at its address. */
module Merging {
  import opened Types
  import opened GraphSpecs

  /** The blocks that have been moved into the new block, with their offsets in it. */
  type Placement = map<BlockId, int>

  /** The reference `r` after the blocks in `moved` have become part of block `into`. */
  function Relocate(r: Reference, moved: Placement, into: BlockId): Reference
  {
    if r.referenced in moved then Moved(r, into, moved[r.referenced]) else r
  }

  function RelocateAll(refs: ReferenceMap, moved: Placement, into: BlockId): ReferenceMap
  {
    map o | o in refs :: Relocate(refs[o], moved, into)
  }

  /** The references of block `b`, moved by `d`, on top of those in `refs`. */
  function MovedIn(refs: ReferenceMap, more: ReferenceMap, d: int): ReferenceMap
  {
    refs + (map x | x in KeysPlus(more.Keys, d) :: more[x - d])
  }

  function KeysPlus(keys: set<int>, d: int): set<int>
  {
    set o {:trigger Plus(o, d)} | o in keys :: Plus(o, d)
  }

  lemma {:induction false} MovedInAt(refs: ReferenceMap, more: ReferenceMap, d: int, x: int)
    ensures Get(MovedIn(refs, more, d), x) == if x - d in more then Some(more[x - d]) else Get(refs, x)
  {
    if x - d in more { assert Plus(x - d, d) == x; }
  }

  /** Offset `x` of the new block holds what offset `x - moved[b]` of block `b` held. */
  predicate ComesFrom(f: Graph, refs: ReferenceMap, moved: Placement, into: BlockId, x: int, b: BlockId)
  {
    && b in moved && b in f && x - moved[b] in f[b].references
    && x in refs && refs[x] == Relocate(f[b].references[x - moved[b]], moved, into)
  }

  /** Blocks that were not moved keep everything but the targets of their references. */
  ghost predicate OthersRelocated(f: Graph, g: Graph, moved: Placement, into: BlockId)
  {
    && g.Keys == f.Keys - moved.Keys
    && forall b :: b in g && b != into ==> g[b] == f[b].(references := RelocateAll(f[b].references, moved, into))
  }

  /** The references `refs` of the new block come from the moved blocks. */
  ghost predicate IntoRelocated(f: Graph, refs: ReferenceMap, moved: Placement, into: BlockId,
                                origin: map<int, BlockId>)
  {
    && refs.Keys == origin.Keys
    && forall x {:trigger origin[x]} :: x in origin ==> ComesFrom(f, refs, moved, into, x, origin[x])
  }

  /** The references of the moved blocks are all in the new block. */
  ghost predicate NoneLost(f: Graph, moved: Placement, origin: map<int, BlockId>)
  {
    forall b: BlockId, o: int {:trigger GoesTo(origin, moved, b, o)} ::
      b in moved && b in f && o in f[b].references ==> GoesTo(origin, moved, b, o)
  }

  /** `g` is `f` after the blocks in `moved` have become part of block `into` and are gone; `origin` says
      which block each reference of `into` comes from. */
  ghost predicate Relocated(f: Graph, g: Graph, moved: Placement, into: BlockId, origin: map<int, BlockId>)
  {
    && into in f && into in g && into !in moved
    && OthersRelocated(f, g, moved, into)
    && IntoRelocated(f, g[into].references, moved, into, origin)
    && NoneLost(f, moved, origin)
  }

  predicate GoesTo(origin: map<int, BlockId>, moved: Placement, b: BlockId, o: int)
  {
    b in moved && moved[b] + o in origin && origin[moved[b] + o] == b
  }

  // ----- the references keep their addresses -----

  /** A position: an address if the block has one, otherwise a block and an offset. */
  datatype Location = Address(address: int) | Within(block: BlockId, offset: int)

  function Locate(addresses: map<BlockId, int>, b: BlockId, o: int): Location
  {
    if b in addresses then Address(addresses[b] + o) else Within(b, o)
  }

  /** A reference described by the positions of its source, its target and its base. */
  datatype LocatedReference =
    LocatedReference(source: Location, target: Location, base: Location, kind: nat, size: nat)

  function LocateReference(addresses: map<BlockId, int>, b: BlockId, o: int, r: Reference): LocatedReference
  {
    LocatedReference(Locate(addresses, b, o), Locate(addresses, r.referenced, r.offset),
                     Locate(addresses, r.referenced, r.base), r.kind, r.size)
  }

  /** The graph has a reference with these positions. */
  ghost predicate HasLocated(g: Graph, addresses: map<BlockId, int>, l: LocatedReference)
  {
    exists b: BlockId, o: int :: b in g && o in g[b].references &&
      LocateReference(addresses, b, o, g[b].references[o]) == l
  }

  /** Addresses before and after: moved blocks lie in the new block at the offsets in `moved`. */
  ghost predicate SameAddresses(before: map<BlockId, int>, after: map<BlockId, int>, moved: Placement, into: BlockId)
  {
    && into in after && into !in before
    && (forall b :: b in moved ==> b in before && before[b] == after[into] + moved[b])
    && (forall b :: b !in moved && b != into ==> (b in before <==> b in after))
    && (forall b :: b !in moved && b in before ==> b in after && after[b] == before[b])
  }

  lemma {:induction false} RelocateKeepsAddress(before: map<BlockId, int>, after: map<BlockId, int>, moved: Placement,
                                                into: BlockId, b: BlockId, o: int, r: Reference)
    requires SameAddresses(before, after, moved, into) && b != into && r.referenced != into
    ensures LocateReference(before, b, o, r)
      == LocateReference(after, if b in moved then into else b, if b in moved then moved[b] + o else o,
                         Relocate(r, moved, into))
  {
  }

  /** Where a reference goes. */
  lemma {:induction false} RelocatedForward(f: Graph, g: Graph, moved: Placement, into: BlockId,
                                            origin: map<int, BlockId>, b: BlockId, o: int)
    requires Relocated(f, g, moved, into, origin) && b in f && b != into && o in f[b].references
    ensures var b', o' := if b in moved then into else b, if b in moved then moved[b] + o else o;
      b' in g && o' in g[b'].references && g[b'].references[o'] == Relocate(f[b].references[o], moved, into)
  {
    if b in moved {
      assert GoesTo(origin, moved, b, o);
      assert ComesFrom(f, g[into].references, moved, into, moved[b] + o, b);
    } else {
      assert b in g;
    }
  }

  /** Where a reference comes from. */
  lemma {:induction false} RelocatedBackward(f: Graph, g: Graph, moved: Placement, into: BlockId,
                                             origin: map<int, BlockId>, c: BlockId, p: int)
    returns (b: BlockId, o: int)
    requires Relocated(f, g, moved, into, origin) && c in g && p in g[c].references
    ensures b in f && b != into && o in f[b].references
    ensures c == if b in moved then into else b
    ensures p == if b in moved then moved[b] + o else o
    ensures g[c].references[p] == Relocate(f[b].references[o], moved, into)
  {
    if c == into {
      assert p in origin;
      b := origin[p];
      assert ComesFrom(f, g[into].references, moved, into, p, b);
      o := p - moved[b];
    } else {
      b, o := c, p;
      assert g[b] == f[b].(references := RelocateAll(f[b].references, moved, into));
    }
  }

  lemma {:induction false} LocatedForward(f: Graph, g: Graph, moved: Placement, into: BlockId,
                                          origin: map<int, BlockId>, before: map<BlockId, int>,
                                          after: map<BlockId, int>, l: LocatedReference)
    requires Relocated(f, g, moved, into, origin) && SameAddresses(before, after, moved, into)
    requires f[into].references == map[]
    requires forall b, o :: b in f && o in f[b].references ==> f[b].references[o].referenced != into
    requires HasLocated(f, before, l)
    ensures HasLocated(g, after, l)
  {
    var b: BlockId, o: int :| b in f && o in f[b].references && LocateReference(before, b, o, f[b].references[o]) == l;
    RelocatedForward(f, g, moved, into, origin, b, o);
    RelocateKeepsAddress(before, after, moved, into, b, o, f[b].references[o]);
  }

  lemma {:induction false} LocatedBackward(f: Graph, g: Graph, moved: Placement, into: BlockId,
                                           origin: map<int, BlockId>, before: map<BlockId, int>,
                                           after: map<BlockId, int>, l: LocatedReference)
    requires Relocated(f, g, moved, into, origin) && SameAddresses(before, after, moved, into)
    requires forall b, o :: b in f && o in f[b].references ==> f[b].references[o].referenced != into
    requires HasLocated(g, after, l)
    ensures HasLocated(f, before, l)
  {
    var c: BlockId, p: int :| c in g && p in g[c].references && LocateReference(after, c, p, g[c].references[p]) == l;
    var b, o := RelocatedBackward(f, g, moved, into, origin, c, p);
    RelocateKeepsAddress(before, after, moved, into, b, o, f[b].references[o]);
  }

  /** Moving blocks keeps every reference at the same source, target and base position, with the same
      kind and size, and creates none. */
  lemma {:induction false} RelocationKeepsAddresses(f: Graph, g: Graph, moved: Placement, into: BlockId,
                                                    origin: map<int, BlockId>, before: map<BlockId, int>,
                                                    after: map<BlockId, int>)
    requires Relocated(f, g, moved, into, origin) && SameAddresses(before, after, moved, into)
    requires f[into].references == map[]
    requires forall b, o :: b in f && o in f[b].references ==> f[b].references[o].referenced != into
    ensures forall l :: HasLocated(f, before, l) <==> HasLocated(g, after, l)
  {
    forall l ensures HasLocated(f, before, l) <==> HasLocated(g, after, l) {
      if HasLocated(f, before, l) { LocatedForward(f, g, moved, into, origin, before, after, l); }
      if HasLocated(g, after, l) { LocatedBackward(f, g, moved, into, origin, before, after, l); }
    }
  }

  // ----- one block at a time -----

  lemma {:induction false} RelocatedNone(f: Graph, into: BlockId)
    requires into in f && f[into].references == map[]
    ensures Relocated(f, f, map[], into, map[])
  {
    forall b | b in f ensures RelocateAll(f[b].references, map[], into) == f[b].references {
      assert forall o :: o in f[b].references ==> Relocate(f[b].references[o], map[], into) == f[b].references[o];
    }
  }

  /** Relocating one more block changes a reference that has been relocated so far only if it leads to
      that block. */
  lemma {:induction false} RelocateOneMore(r: Reference, moved: Placement, into: BlockId, b: BlockId, d: int)
    requires b !in moved && b != into && into !in moved
    ensures Relocate(r, moved[b := d], into)
      == if Relocate(r, moved, into).referenced == b then Moved(Relocate(r, moved, into), into, d)
         else Relocate(r, moved, into)
  {
  }

  /** The graph after block `b` has been moved: its references go to `into`, the references that lead to
      it are redirected, and it is taken away. */
  function MovedBlock(g: Graph, c: BlockId, b: BlockId, into: BlockId, d: int): Block
    requires b in g && into in g && c in g
  {
    var refs := if c == into then MovedIn(g[into].references, g[b].references, d) else g[c].references;
    g[c].(references := RelocateAll(refs, map[b := d], into))
  }

  function BlockMovedIn(g: Graph, b: BlockId, into: BlockId, d: int): Graph
    requires b in g && into in g
  {
    map c | c in g && c != b :: MovedBlock(g, c, b, into, d)
  }

  lemma {:induction false} RelocateAllOneMore(refs: ReferenceMap, moved: Placement, into: BlockId, b: BlockId, d: int)
    requires b !in moved && b != into && into !in moved
    ensures RelocateAll(RelocateAll(refs, moved, into), map[b := d], into) == RelocateAll(refs, moved[b := d], into)
  {
    forall o | o in refs
      ensures Relocate(Relocate(refs[o], moved, into), map[b := d], into) == Relocate(refs[o], moved[b := d], into)
    {
      RelocateOneMore(refs[o], moved, into, b, d);
    }
  }

  function NewOrigin(f: Graph, origin: map<int, BlockId>, b: BlockId, d: int): map<int, BlockId>
    requires b in f
  {
    origin + (map x | x in KeysPlus(f[b].references.Keys, d) :: b)
  }

  lemma {:induction false} NewOriginAt(f: Graph, origin: map<int, BlockId>, b: BlockId, d: int, x: int)
    requires b in f
    ensures Get(NewOrigin(f, origin, b, d), x) == if x - d in f[b].references then Some(b) else Get(origin, x)
  {
    if x - d in f[b].references { assert Plus(x - d, d) == x; }
  }

  /** The references of the block that is moved do not land on references that are there. */
  ghost predicate LandsFree(f: Graph, origin: map<int, BlockId>, b: BlockId, d: int)
    requires b in f
  {
    forall o :: o in f[b].references ==> d + o !in origin
  }

  lemma {:induction false} MovedInRelocatedAt(refs: ReferenceMap, more: ReferenceMap, d: int, b: BlockId,
                                              into: BlockId, x: int)
    ensures Get(RelocateAll(MovedIn(refs, more, d), map[b := d], into), x) ==
      if x - d in more then Some(Relocate(more[x - d], map[b := d], into))
      else if x in refs then Some(Relocate(refs[x], map[b := d], into))
      else None
  {
    MovedInAt(refs, more, d, x);
  }

  lemma {:induction false} OwnReferenceComes(f: Graph, after: ReferenceMap, moved: Placement, into: BlockId,
                                             b: BlockId, d: int, x: int)
    requires b in f && b != into && b !in moved && into !in moved && x - d in f[b].references
    requires Get(after, x) == Some(Relocate(Relocate(f[b].references[x - d], moved, into), map[b := d], into))
    ensures ComesFrom(f, after, moved[b := d], into, x, b)
  {
    RelocateOneMore(f[b].references[x - d], moved, into, b, d);
  }

  lemma {:induction false} EarlierReferenceComes(f: Graph, refs: ReferenceMap, after: ReferenceMap, moved: Placement,
                                                 into: BlockId, c: BlockId, b: BlockId, d: int, x: int)
    requires b != into && b !in moved && into !in moved
    requires ComesFrom(f, refs, moved, into, x, c)
    requires Get(after, x) == Some(Relocate(refs[x], map[b := d], into))
    ensures ComesFrom(f, after, moved[b := d], into, x, c)
  {
    RelocateOneMore(f[c].references[x - moved[c]], moved, into, b, d);
  }

  lemma {:induction false} IntoStep(f: Graph, refs: ReferenceMap, more: ReferenceMap, after: ReferenceMap,
                                    moved: Placement, into: BlockId, origin: map<int, BlockId>,
                                    origin': map<int, BlockId>, b: BlockId, d: int)
    requires b in f && b != into && b !in moved && into !in moved
    requires more == RelocateAll(f[b].references, moved, into)
    requires after == RelocateAll(MovedIn(refs, more, d), map[b := d], into)
    requires origin' == NewOrigin(f, origin, b, d)
    requires IntoRelocated(f, refs, moved, into, origin)
    ensures IntoRelocated(f, after, moved[b := d], into, origin')
  {
    forall x
      ensures x in after <==> x in origin'
      ensures x in origin' ==> ComesFrom(f, after, moved[b := d], into, x, origin'[x])
    {
      MovedInRelocatedAt(refs, more, d, b, into, x);
      NewOriginAt(f, origin, b, d, x);
      if x - d in f[b].references {
        OwnReferenceComes(f, after, moved, into, b, d, x);
      } else if x in origin {
        EarlierReferenceComes(f, refs, after, moved, into, origin[x], b, d, x);
      }
    }
  }

  lemma {:induction false} OthersStep(f: Graph, g: Graph, h: Graph, moved: Placement, into: BlockId, b: BlockId, d: int)
    requires OthersRelocated(f, g, moved, into) && b in g && into in g && b != into && into !in moved
    requires h == BlockMovedIn(g, b, into, d)
    ensures OthersRelocated(f, h, moved[b := d], into)
  {
    assert h.Keys == f.Keys - moved[b := d].Keys;
    forall c | c in h && c != into
      ensures h[c] == f[c].(references := RelocateAll(f[c].references, moved[b := d], into))
    {
      RelocateAllOneMore(f[c].references, moved, into, b, d);
    }
  }

  lemma {:induction false} NoneLostStep(f: Graph, moved: Placement, origin: map<int, BlockId>,
                                        origin': map<int, BlockId>, b: BlockId, d: int)
    requires NoneLost(f, moved, origin) && b in f && b !in moved && LandsFree(f, origin, b, d)
    requires origin' == NewOrigin(f, origin, b, d)
    ensures NoneLost(f, moved[b := d], origin')
  {
    forall c: BlockId, o: int | c in moved[b := d] && c in f && o in f[c].references
      ensures GoesTo(origin', moved[b := d], c, o)
    {
      NewOriginAt(f, origin, b, d, moved[b := d][c] + o);
      if c != b {
        assert GoesTo(origin, moved, c, o);
      }
    }
  }

  /** Moving one more block. */
  lemma {:induction false} RelocateStep(f: Graph, g: Graph, h: Graph, moved: Placement, into: BlockId,
                     origin: map<int, BlockId>, origin': map<int, BlockId>, b: BlockId, d: int)
    requires Relocated(f, g, moved, into, origin) && b in g && b != into && LandsFree(f, origin, b, d)
    requires h == BlockMovedIn(g, b, into, d) && origin' == NewOrigin(f, origin, b, d)
    ensures Relocated(f, h, moved[b := d], into, origin')
  {
    OthersStep(f, g, h, moved, into, b, d);
    IntoStep(f, g[into].references, g[b].references, h[into].references, moved, into, origin, origin', b, d);
    NoneLostStep(f, moved, origin, origin', b, d);
  }

  // ----- moving one block, step by step -----

  /** The graph with new references in the block that is moved and in the block it is moved to. */
  function Exchanged(f: Graph, b: BlockId, into: BlockId, rest: ReferenceMap, refs: ReferenceMap): Graph
    requires b in f && into in f && b != into
  {
    f[b := f[b].(references := rest)][into := f[into].(references := refs)]
  }

  lemma {:induction false} ExchangeStep(f: Graph, b: BlockId, into: BlockId, rest: ReferenceMap, refs: ReferenceMap,
                                        k: int, x: int, r: Reference)
    requires b in f && into in f && b != into
    ensures var g := Exchanged(f, b, into, rest, refs);
      WithReferences(WithReferences(g, b, rest - {k}), into, refs[x := r])
      == Exchanged(f, b, into, rest - {k}, refs[x := r])
  {
  }

  lemma {:induction false} ExchangedNow(f: Graph, g: Graph, b: BlockId, into: BlockId, rest: ReferenceMap,
                                        refs: ReferenceMap)
    requires b in f && into in f && b != into && Strip(g) == Exchanged(f, b, into, rest, refs)
    ensures g.Keys == f.Keys && g[b].references == rest && g[into].references == refs
  {
    assert g.Keys == Strip(g).Keys == f.Keys;
    StripAt(g, b);
    StripAt(g, into);
  }

  /** The graph `h'` is `h` with the reference of block `b` at `k` taken out and `r` set in `into` at `x`. */
  ghost predicate ReferenceMoved(h: Graph, h': Graph, b: BlockId, into: BlockId, k: int, x: int, r: Reference)
    requires b in h && into in h
  {
    Strip(h') == WithReferences(WithReferences(Strip(h), b, h[b].references - {k}), into,
                                h[into].references[x := r])
  }

  lemma {:induction false} ExchangeNext(f: Graph, h: Graph, h': Graph, b: BlockId, into: BlockId, rest: ReferenceMap,
                     refs: ReferenceMap, k: int, x: int, r: Reference)
    requires b in f && into in f && b != into && b in h && into in h
    requires Strip(h) == Exchanged(f, b, into, rest, refs) && ReferenceMoved(h, h', b, into, k, x, r)
    ensures Strip(h') == Exchanged(f, b, into, rest - {k}, refs[x := r])
  {
    ExchangedNow(f, h, b, into, rest, refs);
    ExchangeStep(f, b, into, rest, refs, k, x, r);
  }

  /** In the middle of moving the references `all` on top of `refs`: `rest` are still to be moved, and
      `moved` is the result so far. */
  ghost predicate MovingOn(all: ReferenceMap, rest: ReferenceMap, refs: ReferenceMap, moved: ReferenceMap, d: int)
  {
    && (forall k :: k in rest ==> k in all && rest[k] == all[k])
    && (forall x :: Get(moved, x) == if x - d in all && x - d !in rest then Some(all[x - d]) else Get(refs, x))
  }

  lemma {:induction false} MovingBegins(f: Graph, b: BlockId, into: BlockId, d: int)
    requires b in f && into in f && b != into
    ensures f == Exchanged(f, b, into, f[b].references, f[into].references)
    ensures MovingOn(f[b].references, f[b].references, f[into].references, f[into].references, d)
  {
  }

  lemma {:induction false} MovingAdvances(all: ReferenceMap, rest: ReferenceMap, refs: ReferenceMap,
                                          moved: ReferenceMap, d: int, k: int)
    requires MovingOn(all, rest, refs, moved, d) && k in rest
    ensures MovingOn(all, rest - {k}, refs, moved[d + k := all[k]], d)
  {
    forall x
      ensures Get(moved[d + k := all[k]], x)
        == if x - d in all && x - d !in rest - {k} then Some(all[x - d]) else Get(refs, x)
    {
      assert Get(moved, x) == if x - d in all && x - d !in rest then Some(all[x - d]) else Get(refs, x);
    }
  }

  lemma {:induction false} MovingEnds(all: ReferenceMap, refs: ReferenceMap, moved: ReferenceMap, d: int)
    requires MovingOn(all, map[], refs, moved, d)
    ensures moved == MovedIn(refs, all, d)
  {
    forall x ensures Get(moved, x) == Get(MovedIn(refs, all, d), x) {
      MovedInAt(refs, all, d, x);
    }
    SameItems(moved, MovedIn(refs, all, d));
  }

  lemma {:induction false} ReferrersAreTransferred(g: Graph, b: BlockId, into: BlockId, d: int, c: BlockId)
    requires Mirrored(g) && b in g && c in g
    ensures RetargetBlock(g[c].references, c, Transferable(g, b, false), MoveTo(into, d))
      == RelocateAll(g[c].references, map[b := d], into)
  {
    forall o | o in g[c].references
      ensures RetargetBlock(g[c].references, c, Transferable(g, b, false), MoveTo(into, d))[o]
        == RelocateAll(g[c].references, map[b := d], into)[o]
    {
      assert (c, o) in g[b].referrers <==> Refers(g, c, o, b);
      assert (c, o) in Transferable(g, b, false) <==> g[c].references[o].referenced == b;
    }
  }

  /** Redirecting all referrers of a block, seen from one block. */
  lemma {:induction false} TransferredAt(g: Graph, h: Graph, b: BlockId, into: BlockId, d: int, c: BlockId)
    requires Mirrored(g) && b in g && c in g
    requires Strip(h) == Retarget(Strip(g), Transferable(g, b, false), MoveTo(into, d))
    ensures c in Strip(h)
    ensures Strip(h)[c] == Strip(g)[c].(references := RelocateAll(Strip(g)[c].references, map[b := d], into))
  {
    StripAt(g, c);
    ReferrersAreTransferred(g, b, into, d, c);
  }

  /** Moving all references and redirecting all referrers, seen from one block. */
  lemma {:induction false} MovedAt(f: Graph, g: Graph, h: Graph, b: BlockId, into: BlockId, d: int, c: BlockId)
    requires b in f && into in f && b != into && Mirrored(g) && c in f
    requires Strip(g) == Exchanged(f, b, into, map[], MovedIn(f[into].references, f[b].references, d))
    requires b in g && Strip(h) == Retarget(Strip(g), Transferable(g, b, false), MoveTo(into, d))
    ensures c in Strip(h)
    ensures Strip(h)[c].references == RelocateAll(Strip(g)[c].references, map[b := d], into)
    ensures c != b ==> Strip(h)[c] == MovedBlock(f, c, b, into, d)
  {
    assert g.Keys == Strip(g).Keys == f.Keys;
    TransferredAt(g, h, b, into, d, c);
  }

  lemma {:induction false} BlockMovedInIs(f: Graph, k: Graph, b: BlockId, into: BlockId, d: int)
    requires b in f && into in f && b != into && k.Keys == f.Keys
    requires forall c: BlockId {:trigger k[c]} :: c in f && c != b ==> k[c] == MovedBlock(f, c, b, into, d)
    ensures k - {b} == BlockMovedIn(f, b, into, d)
  {
    forall c | c in k - {b} ensures (k - {b})[c] == BlockMovedIn(f, b, into, d)[c] {
      assert (k - {b})[c] == k[c];
    }
  }

  /** Moving all references and redirecting all referrers moves the block. */
  lemma {:induction false} MoveEnds(f: Graph, g: Graph, h: Graph, b: BlockId, into: BlockId, d: int)
    requires b in f && into in f && b != into && Mirrored(g)
    requires Strip(g) == Exchanged(f, b, into, map[], MovedIn(f[into].references, f[b].references, d))
    requires b in g && Strip(h) == Retarget(Strip(g), Transferable(g, b, false), MoveTo(into, d))
    ensures Strip(h) - {b} == BlockMovedIn(f, b, into, d)
    ensures b in Strip(h) && Strip(h)[b].references == map[]
  {
    var k := Strip(h);
    assert k.Keys == Strip(g).Keys == f.Keys;
    forall c: BlockId | c in f && c != b
      ensures k[c] == MovedBlock(f, c, b, into, d)
    {
      MovedAt(f, g, h, b, into, d, c);
    }
    BlockMovedInIs(f, k, b, into, d);
    MovedAt(f, g, h, b, into, d, b);
  }

  /** Nothing refers to a block any more that has been moved. */
  lemma {:induction false} NothingRefers(g: Graph, h: Graph, b: BlockId, into: BlockId, d: int)
    requires Mirrored(g) && b in g && b != into
    requires Strip(h) == Retarget(Strip(g), Transferable(g, b, false), MoveTo(into, d))
    ensures forall c, o :: c in Strip(h) && o in Strip(h)[c].references ==> Strip(h)[c].references[o].referenced != b
  {
    forall c, o | c in Strip(h) && o in Strip(h)[c].references
      ensures Strip(h)[c].references[o].referenced != b
    {
      assert Strip(h).Keys == Strip(g).Keys == g.Keys;
      TransferredAt(g, h, b, into, d, c);
    }
  }

  /** The targets of references to a code block stay within the block it is moved to. */
  ghost predicate MoveFits(g: Graph, b: BlockId, d: int, into: BlockId)
    requires b in g && into in g
  {
    g[b].kind == CodeBlock ==> forall c: BlockId, o: int :: Refers(g, c, o, b) ==>
      0 <= g[c].references[o].offset + d <= g[into].size
  }

  /** Moving the references of a block takes no target out of range. */
  lemma {:induction false} StillFits(g: Graph, h: Graph, b: BlockId, d: int, into: BlockId)
    requires b in g && into in g && b != into && Mirrored(h) && MoveFits(g, b, d, into)
    requires Strip(h) == Exchanged(Strip(g), b, into, map[],
                                   MovedIn(Strip(g)[into].references, Strip(g)[b].references, d))
    ensures b in h && into in h && TransferFits(h, b, d, into, false)
  {
    assert h.Keys == Strip(h).Keys == g.Keys;
    StripAt(h, b);
    StripAt(h, into);
    StripAt(g, b);
    StripAt(g, into);
    forall r | r in Transferable(h, b, false)
      ensures TransferOneFits(h, r, b, d, into)
    {
      assert r == (r.0, r.1);
      ReferrerHasReference(h, b, r.0, r.1);
      var c, o := CameFrom(g, h, b, d, into, r.0, r.1);
      assert Refers(g, c, o, b);
    }
  }

  /** Every reference to block `b` was there before. */
  lemma {:induction false} CameFrom(g: Graph, h: Graph, b: BlockId, d: int, into: BlockId, c: BlockId, o: int)
    returns (c': BlockId, o': int)
    requires b in g && into in g && b != into && Refers(h, c, o, b)
    requires Strip(h) == Exchanged(Strip(g), b, into, map[],
                                   MovedIn(Strip(g)[into].references, Strip(g)[b].references, d))
    ensures Refers(g, c', o', b) && g[c'].references[o'] == h[c].references[o]
  {
    assert h.Keys == Strip(h).Keys == g.Keys;
    StripAt(h, c);
    StripAt(g, c);
    if c == into {
      MovedInAt(Strip(g)[into].references, Strip(g)[b].references, d, o);
      StripAt(g, b);
      c', o' := if o - d in Strip(g)[b].references then b else c, if o - d in Strip(g)[b].references then o - d else o;
    } else {
      c', o' := c, o;
    }
  }

  /** A block nothing refers to, and without references, has neither references nor referrers. */
  lemma {:induction false} Disconnected(h: Graph, b: BlockId)
    requires Mirrored(h) && b in h && Strip(h)[b].references == map[]
    requires forall c, o :: c in Strip(h) && o in Strip(h)[c].references ==> Strip(h)[c].references[o].referenced != b
    ensures h[b].references == map[] && h[b].referrers == {}
  {
    StripAt(h, b);
    forall r | r in h[b].referrers
      ensures false
    {
      assert r == (r.0, r.1);
      ReferrerHasReference(h, b, r.0, r.1);
      StripAt(h, r.0);
    }
  }

  lemma {:induction false} StripWithout(g: Graph, b: BlockId)
    ensures Strip(g - {b}) == Strip(g) - {b}
  {
  }

  /** Labels of the new block do not matter to the references. */
  lemma {:induction false} RelocatedIgnoresLabels(f: Graph, g: Graph, h: Graph, moved: Placement, into: BlockId,
                               origin: map<int, BlockId>, labels: map<int, Label>)
    requires Relocated(f, g, moved, into, origin) && h == g[into := g[into].(labels := labels)]
    ensures Relocated(f, h, moved, into, origin)
  {
  }
}
