/** Redirecting what referred to the original block to the new places of its basic blocks. */
module Redirection {
  import opened Types
  import opened BasicBlocks
  import opened Layout
  import opened GraphSpecs

  /** The basic block that each external referrer of the original block refers to. */
  type Owners = map<Referrer, BBId>

  function ReferrersOf(owners: Owners, bb: BBId): set<Referrer> { set r | r in owners && owners[r] == bb }

  /** A reference directed to the start of a basic block in its new block. */
  function Landing(l: LayoutMap, bb: BBId, ref: Reference): Reference
    requires bb in l
  {
    Reference(ref.kind, ref.size, l[bb].block, l[bb].startOffset, l[bb].startOffset)
  }

  /** The reference leads to where the basic block is now, and is of the same kind and size as it was. */
  predicate LeadsToStart(l: LayoutMap, bb: BBId, was: Reference, now: Reference)
    requires bb in l
  {
    && now.kind == was.kind && now.size == was.size && now.referenced == l[bb].block
    && now.offset == now.base == l[bb].startOffset
  }

  function LandAt(l: LayoutMap, bb: BBId): Reference -> Reference
    requires bb in l
  {
    ref => Landing(l, bb, ref)
  }

  /** The reference at (b, o) when the referrers of the basic blocks in `done` have been redirected. */
  function RedirectOne(ref: Reference, r: Referrer, owners: Owners, l: LayoutMap, done: set<BBId>): Reference
  {
    if r in owners && owners[r] in done && owners[r] in l then Landing(l, owners[r], ref) else ref
  }

  function RedirectBlock(refs: ReferenceMap, b: BlockId, owners: Owners, l: LayoutMap, done: set<BBId>): ReferenceMap
  {
    map o | o in refs :: RedirectOne(refs[o], (b, o), owners, l, done)
  }

  function Redirect(f: Graph, owners: Owners, l: LayoutMap, done: set<BBId>): Graph
  {
    map b | b in f :: f[b].(references := RedirectBlock(f[b].references, b, owners, l, done))
  }

  lemma {:induction false} RedirectNone(f: Graph, owners: Owners, l: LayoutMap)
    ensures Redirect(f, owners, l, {}) == f
  {
    forall b | b in f ensures RedirectBlock(f[b].references, b, owners, l, {}) == f[b].references {
      assert forall o :: o in f[b].references ==>
        RedirectOne(f[b].references[o], (b, o), owners, l, {}) == f[b].references[o];
    }
  }

  lemma {:induction false} RedirectBlockNext(refs: ReferenceMap, b: BlockId, owners: Owners, l: LayoutMap,
                                             done: set<BBId>, bb: BBId)
    requires bb in l && bb !in done
    ensures RetargetBlock(RedirectBlock(refs, b, owners, l, done), b, ReferrersOf(owners, bb), LandAt(l, bb))
      == RedirectBlock(refs, b, owners, l, done + {bb})
  {
    forall o | o in refs
      ensures RetargetBlock(RedirectBlock(refs, b, owners, l, done), b, ReferrersOf(owners, bb), LandAt(l, bb))[o]
        == RedirectBlock(refs, b, owners, l, done + {bb})[o]
    {
      assert (b, o) in ReferrersOf(owners, bb) <==> (b, o) in owners && owners[(b, o)] == bb;
    }
  }

  /** Redirecting the referrers of one more basic block. */
  lemma {:induction false} RedirectNext(f: Graph, owners: Owners, l: LayoutMap, done: set<BBId>, bb: BBId)
    requires bb in l && bb !in done
    ensures Retarget(Redirect(f, owners, l, done), ReferrersOf(owners, bb), LandAt(l, bb))
      == Redirect(f, owners, l, done + {bb})
  {
    var left := Retarget(Redirect(f, owners, l, done), ReferrersOf(owners, bb), LandAt(l, bb));
    var right := Redirect(f, owners, l, done + {bb});
    forall b | b in f ensures left[b] == right[b] {
      RedirectBlockNext(f[b].references, b, owners, l, done, bb);
    }
    assert left.Keys == right.Keys;
  }

  /** Every recorded referrer has a reference. */
  ghost predicate ReferrersExist(f: Graph, owners: Owners)
  {
    forall r :: r in owners ==> r.0 in f && r.1 in f[r.0].references && f[r.0].references[r.1].size > 0
  }

  lemma {:induction false} RedirectKeepsReferrers(f: Graph, owners: Owners, l: LayoutMap, done: set<BBId>)
    requires ReferrersExist(f, owners)
    ensures ReferrersExist(Redirect(f, owners, l, done), owners)
  {
    var g := Redirect(f, owners, l, done);
    forall r | r in owners ensures r.0 in g && r.1 in g[r.0].references && g[r.0].references[r.1].size > 0 {
      assert g[r.0].references == RedirectBlock(f[r.0].references, r.0, owners, l, done);
      assert g[r.0].references[r.1] == RedirectOne(f[r.0].references[r.1], (r.0, r.1), owners, l, done);
    }
  }

  /** In the middle of redirecting: the basic blocks in `todo` are left. */
  ghost predicate Redirecting(f: Graph, g: Graph, owners: Owners, l: LayoutMap, todo: set<BBId>)
  {
    Strip(g) == Redirect(f, owners, l, l.Keys - todo)
  }

  lemma {:induction false} RedirectBegins(g: Graph, owners: Owners, l: LayoutMap)
    ensures Redirecting(Strip(g), g, owners, l, l.Keys)
  {
    RedirectNone(Strip(g), owners, l);
    assert l.Keys - l.Keys == {};
  }

  lemma {:induction false} RedirectVisits(f: Graph, g: Graph, owners: Owners, l: LayoutMap, todo: set<BBId>)
    requires Redirecting(f, g, owners, l, todo) && ReferrersExist(f, owners)
    ensures ReferrersExist(Strip(g), owners) && g.Keys == f.Keys
  {
    RedirectKeepsReferrers(f, owners, l, l.Keys - todo);
    assert g.Keys == Strip(g).Keys == f.Keys;
  }

  lemma {:induction false} RedirectAdvances(f: Graph, g: Graph, h: Graph, owners: Owners, l: LayoutMap,
                                            todo: set<BBId>, bb: BBId)
    requires Redirecting(f, g, owners, l, todo) && bb in todo && bb in l
    requires Strip(h) == Retarget(Strip(g), ReferrersOf(owners, bb), LandAt(l, bb))
    ensures Redirecting(f, h, owners, l, todo - {bb})
  {
    assert (l.Keys - todo) + {bb} == l.Keys - (todo - {bb});
    RedirectNext(f, owners, l, l.Keys - todo, bb);
  }

  lemma {:induction false} RedirectEnds(f: Graph, g: Graph, owners: Owners, l: LayoutMap)
    requires Redirecting(f, g, owners, l, {})
    ensures Strip(g) == Redirect(f, owners, l, l.Keys)
  {
    assert l.Keys - {} == l.Keys;
  }

  /** In the middle of redirecting the referrers of one basic block. */
  ghost predicate Updating(g: Graph, h: Graph, owners: Owners, l: LayoutMap, bb: BBId, todo: set<Referrer>)
    requires bb in l
  {
    && todo <= ReferrersOf(owners, bb)
    && Strip(h) == Retarget(Strip(g), ReferrersOf(owners, bb) - todo, LandAt(l, bb))
  }

  lemma {:induction false} UpdateBegins(g: Graph, owners: Owners, l: LayoutMap, bb: BBId)
    requires bb in l
    ensures Updating(g, g, owners, l, bb, ReferrersOf(owners, bb))
  {
    assert ReferrersOf(owners, bb) - ReferrersOf(owners, bb) == {};
    RetargetNone(Strip(g), LandAt(l, bb));
  }

  lemma {:induction false} UpdateVisits(g: Graph, h: Graph, owners: Owners, l: LayoutMap, bb: BBId,
                                        todo: set<Referrer>, r: Referrer)
    requires bb in l && Updating(g, h, owners, l, bb, todo) && r in todo && ReferrersExist(Strip(g), owners)
    ensures h.Keys == g.Keys && r.0 in g && r.1 in g[r.0].references
    ensures r.1 in h[r.0].references && h[r.0].references[r.1] == g[r.0].references[r.1]
    ensures h[r.0].references[r.1].size > 0
  {
    assert r == (r.0, r.1) && r in owners;
    StripAt(g, r.0);
    ChangeStep(g, h, ReferrersOf(owners, bb) - todo, LandAt(l, bb), r.0, r.1);
    assert h.Keys == Strip(h).Keys == g.Keys;
  }

  lemma {:induction false} UpdateAdvances(g: Graph, h: Graph, k: Graph, owners: Owners, l: LayoutMap, bb: BBId,
                                          todo: set<Referrer>, r: Referrer)
    requires bb in l && Updating(g, h, owners, l, bb, todo) && r in todo
    requires r.0 in g && r.1 in g[r.0].references && r.0 in h
    requires Strip(k) == WithReferences(Strip(h), r.0,
                                        h[r.0].references[r.1 := Landing(l, bb, g[r.0].references[r.1])])
    ensures Updating(g, k, owners, l, bb, todo - {r})
  {
    assert r == (r.0, r.1);
    var done := ReferrersOf(owners, bb) - todo;
    ChangeStep(g, h, done, LandAt(l, bb), r.0, r.1);
    assert done + {r} == ReferrersOf(owners, bb) - (todo - {r});
  }

  lemma {:induction false} UpdateEnds(g: Graph, h: Graph, owners: Owners, l: LayoutMap, bb: BBId)
    requires bb in l && Updating(g, h, owners, l, bb, {})
    ensures Strip(h) == Retarget(Strip(g), ReferrersOf(owners, bb), LandAt(l, bb))
  {
    assert ReferrersOf(owners, bb) - {} == ReferrersOf(owners, bb);
  }
}
