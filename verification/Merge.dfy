/** Merging a subgraph into the block graph: all steps of the block builder together. */
module Merge {
  import opened Types
  import opened Conditions
  import opened BasicBlocks
  import opened Layout
  import opened LayoutTheorems
  import opened Emission
  import opened ControlFlow
  import opened BuilderSpecs
  import opened BuilderPlans
  import opened GraphSpecs
  import opened BlockGraphs
  import opened Redirection
  import opened BlockBuilder

  // ----- what a subgraph has to be like -----

  /** All basic blocks of the first `n` descriptions. */
  function DescribedIds(descriptions: seq<Description>, n: nat): set<BBId>
    requires n <= |descriptions|
  {
    if n == 0 then {} else DescribedIds(descriptions, n - 1) + IdsOf(descriptions[n - 1].order)
  }

  /** The basic blocks of the order are as the builder demands; they refer to each other and to blocks of the
      graph. */
  ghost predicate OrderSound(bbs: map<BBId, BasicBlock>, order: seq<BBId>, ids: set<BBId>, blocks: set<BlockId>)
  {
    AllWellFormed(bbs, order, ids, {}) && AllExist(bbs, order, blocks)
  }

  /** What the builder demands of a subgraph: basic blocks in at most one description, valid successors,
      references to described basic blocks or to blocks that stay, and a recorded basic block for every
      reference from a block that stays to one that goes. The original block goes, if there is one. */
  ghost predicate Sound(bbs: map<BBId, BasicBlock>, descriptions: seq<Description>, g: Graph, owners: Owners,
                        gone: set<BlockId>)
  {
    var ids := DescribedIds(descriptions, |descriptions|);
    && gone <= g.Keys && CanDescribe(bbs, descriptions)
    && (forall i :: 0 <= i < |descriptions| ==> OrderSound(bbs, descriptions[i].order, ids, g.Keys - gone))
    && ReferrersExist(Strip(g), owners)
    && (forall r :: r in owners ==> owners[r] in ids && r.0 !in gone)
    && (forall b: BlockId, o: int :: RefersInto(g, b, o, gone) && b !in gone ==> (b, o) in owners)
  }

  // ----- the end blocks -----

  /** No other basic block follows an end block. */
  ghost predicate EndsLast(bbs: map<BBId, BasicBlock>, order: seq<BBId>, n: nat)
    requires n <= |order| && forall j :: 0 <= j < |order| ==> order[j] in bbs
  {
    forall j, k :: 0 <= j < k < n && bbs[order[j]].End? ==> bbs[order[k]].End?
  }

  method EndBlocksAreWellPlaced(bbs: map<BBId, BasicBlock>, descriptions: seq<Description>) returns (ok: bool)
    requires CanDescribe(bbs, descriptions)
    ensures ok <==> forall i :: 0 <= i < |descriptions| ==>
      EndsLast(bbs, descriptions[i].order, |descriptions[i].order|)
  {
    for i := 0 to |descriptions|
      invariant forall k :: 0 <= k < i ==> EndsLast(bbs, descriptions[k].order, |descriptions[k].order|)
    {
      var order := descriptions[i].order;
      var endBlockSeen := false;
      for k := 0 to |order|
        invariant endBlockSeen <==> exists j :: 0 <= j < k && bbs[order[j]].End?
        invariant EndsLast(bbs, order, k)
      {
        if bbs[order[k]].End? {
          endBlockSeen := true;
        } else if endBlockSeen {
          return false;
        }
      }
    }
    return true;
  }

  // ----- from descriptions to plans -----

  lemma {:induction false} PlanIsDescribed(descriptions: seq<Description>, n: nat, plans: seq<Plan>)
    requires n <= |descriptions| && Orders(plans) == NonEmptyOrders(descriptions, n)
    ensures AllIds(plans) == DescribedIds(descriptions, n)
    ensures forall j :: 0 <= j < |plans| ==> exists i :: 0 <= i < n && plans[j].order == descriptions[i].order
    decreases n
  {
    if n > 0 {
      if descriptions[n - 1].order == [] {
        PlanIsDescribed(descriptions, n - 1, plans);
      } else {
        var last := |plans| - 1;
        assert Orders(plans) == Orders(plans[..last]) + [plans[last].order];
        assert Orders(plans)[..|Orders(plans)| - 1] == Orders(plans[..last]);
        PlanIsDescribed(descriptions, n - 1, plans[..last]);
        forall j | 0 <= j < |plans| ensures exists i :: 0 <= i < n && plans[j].order == descriptions[i].order {
          if j < last { assert plans[j] == plans[..last][j]; }
        }
      }
    }
  }

  lemma {:induction false} StillWellFormed(bb: BasicBlock, ids: set<BBId>, blocks: set<BlockId>, news: set<BlockId>)
    requires WellFormed(bb, ids, {}) && BlockExists(bb, blocks) && blocks !! news
    ensures WellFormed(bb, ids, news)
  {
  }

  lemma {:induction false} OrderWellFormed(bbs: map<BBId, BasicBlock>, order: seq<BBId>, ids: set<BBId>,
                                           blocks: set<BlockId>, news: set<BlockId>)
    requires OrderSound(bbs, order, ids, blocks) && blocks !! news
    ensures AllWellFormed(bbs, order, ids, news)
  {
    forall j | 0 <= j < |order| ensures order[j] in bbs && WellFormed(bbs[order[j]], ids, news) {
      StillWellFormed(bbs[order[j]], ids, blocks, news);
    }
  }

  lemma {:induction false} PlansSound(bbs: map<BBId, BasicBlock>, descriptions: seq<Description>, g: Graph,
                                      owners: Owners, gone: set<BlockId>, plans: seq<Plan>)
    requires Sound(bbs, descriptions, g, owners, gone) && BlocksOf(plans) !! g.Keys
    requires Orders(plans) == NonEmptyOrders(descriptions, |descriptions|)
    ensures AllIds(plans) == DescribedIds(descriptions, |descriptions|)
    ensures forall j :: 0 <= j < |plans| ==>
      && AllWellFormed(bbs, plans[j].order, AllIds(plans), BlocksOf(plans))
      && AllExist(bbs, plans[j].order, g.Keys - gone)
  {
    PlanIsDescribed(descriptions, |descriptions|, plans);
    forall j | 0 <= j < |plans|
      ensures AllWellFormed(bbs, plans[j].order, AllIds(plans), BlocksOf(plans))
      ensures AllExist(bbs, plans[j].order, g.Keys - gone)
    {
      var i :| 0 <= i < |descriptions| && plans[j].order == descriptions[i].order;
      OrderWellFormed(bbs, descriptions[i].order, AllIds(plans), g.Keys - gone, BlocksOf(plans));
    }
  }

  // ----- the steps together -----

  /** All plans have been laid out, and their blocks have the bytes and references of the layout; the blocks
      that were there before, `f0`, are as they were. */
  ghost predicate Generated(bbs: map<BBId, BasicBlock>, descriptions: seq<Description>, plans: seq<Plan>,
                            l: LayoutMap, f0: Graph, f: Graph)
  {
    && PlansApart(plans) && l.Keys == AllIds(plans)
    && BlocksOf(plans) !! f0.Keys && f.Keys == f0.Keys + BlocksOf(plans)
    && (forall j :: 0 <= j < |plans| ==> Settled(bbs, plans[j], l, BlocksOf(plans)) && Emitted(f, plans[j], l))
    && AllAsDescribed(bbs, descriptions, |descriptions|, plans, f)
    && (forall b :: b in f0 ==> f[b] == f0[b])
  }

  lemma {:induction false} AllFillable(bbs: map<BBId, BasicBlock>, plans: seq<Plan>, l: LayoutMap, g0: Graph,
                                       g: Graph, blocks: set<BlockId>)
    requires LaidOutUpTo(bbs, plans, l, BlocksOf(plans), |plans|) && l.Keys == AllIds(plans)
    requires GraphCreated(g0, g, BlocksOf(plans)) && AllSized(g, plans, l, |plans|) && blocks <= g0.Keys
    requires forall j :: 0 <= j < |plans| ==> AllExist(bbs, plans[j].order, blocks)
    ensures forall j :: 0 <= j < |plans| ==> Fillable(Strip(g), plans[j], l)
  {
    forall j | 0 <= j < |plans| ensures Settled(bbs, plans[j], l, BlocksOf(plans)) {
      assert Ready(bbs, plans[j], l, BlocksOf(plans), true);
    }
    LaidOutInNews(bbs, plans, l, BlocksOf(plans));
    forall j | 0 <= j < |plans| ensures Fillable(Strip(g), plans[j], l) {
      BlockIsOneOf(plans, j);
      MoreExist(bbs, plans[j].order, blocks, g.Keys);
      OrderExists(bbs, plans[j], l, BlocksOf(plans), g.Keys);
      StripAt(g, plans[j].block);
      assert Sized(g, plans[j], l);
    }
  }

  lemma {:induction false} MoreExist(bbs: map<BBId, BasicBlock>, order: seq<BBId>, blocks: set<BlockId>,
                                     more: set<BlockId>)
    requires AllExist(bbs, order, blocks) && blocks <= more
    ensures AllExist(bbs, order, more)
  {
    forall j | 0 <= j < |order| ensures order[j] in bbs && BlockExists(bbs[order[j]], more) {
      assert BlockExists(bbs[order[j]], blocks);
    }
  }

  /** Laid out, the blocks are still as described. */
  lemma {:induction false} SizedIsDescribed(bbs: map<BBId, BasicBlock>, descriptions: seq<Description>,
                                            plans: seq<Plan>, l: LayoutMap, created: Graph, g: Graph)
    requires AllAsDescribed(bbs, descriptions, |descriptions|, plans, created) && SameHeaders(created, g)
    requires AllSized(g, plans, l, |plans|)
    ensures AllAsDescribed(bbs, descriptions, |descriptions|, plans, g)
  {
    hide AllAsDescribed;
    forall j | 0 <= j < |plans| ensures g[plans[j].block].size == |g[plans[j].block].data| {
      assert Sized(g, plans[j], l);
    }
    StaysDescribed(bbs, descriptions, |descriptions|, plans, created, g);
  }

  /** Populated, the blocks are still as described. */
  lemma {:induction false} PopulatedIsDescribed(bbs: map<BBId, BasicBlock>, descriptions: seq<Description>,
                                                plans: seq<Plan>, l: LayoutMap, g: Graph, f: Graph)
    requires AllAsDescribed(bbs, descriptions, |descriptions|, plans, g) && AllSized(g, plans, l, |plans|)
    requires PopulatedUpTo(Strip(g), f, plans, l, |plans|)
    ensures AllAsDescribed(bbs, descriptions, |descriptions|, plans, f)
  {
    hide CanEmit, BlockImage, ImageReferences, NonEmpty, AsDescribed;
    forall b | b in g ensures b in f && SameHeader(g[b], f[b]) && f[b].size == g[b].size { StripAt(g, b); }
    forall j | 0 <= j < |plans| ensures f[plans[j].block].size == |f[plans[j].block].data| {
      assert Sized(g, plans[j], l) && Emitted(f, plans[j], l);
      assert DescribedAt(bbs, NonEmpty(descriptions, |descriptions|)[j], plans[j], g);
      assert NonEmpty(descriptions, |descriptions|)[j] in NonEmpty(descriptions, |descriptions|);
      ImageLength(plans[j].order, plans[j].block, l);
    }
    StaysDescribed(bbs, descriptions, |descriptions|, plans, g, f);
  }

  /** Merged, the blocks are still as described. */
  lemma {:induction false} RedirectedIsDescribed(bbs: map<BBId, BasicBlock>, descriptions: seq<Description>,
                                                 plans: seq<Plan>, f: Graph, owners: Owners, l: LayoutMap,
                                                 gone: set<BlockId>)
    requires AllAsDescribed(bbs, descriptions, |descriptions|, plans, f) && BlocksOf(plans) !! gone
    ensures AllAsDescribed(bbs, descriptions, |descriptions|, plans, Redirect(f, owners, l, l.Keys) - gone)
  {
    hide NonEmpty, LargestAlignment;
    var h := Redirect(f, owners, l, l.Keys) - gone;
    var kept := NonEmpty(descriptions, |descriptions|);
    forall j | 0 <= j < |plans| ensures DescribedAt(bbs, kept[j], plans[j], h) {
      assert DescribedAt(bbs, kept[j], plans[j], f);
      BlockIsOneOf(plans, j);
    }
  }

  lemma {:induction false} PopulatedIsGenerated(bbs: map<BBId, BasicBlock>, descriptions: seq<Description>,
                                                plans: seq<Plan>, l: LayoutMap, g0: Graph, g: Graph, f: Graph)
    requires LaidOutUpTo(bbs, plans, l, BlocksOf(plans), |plans|) && l.Keys == AllIds(plans)
    requires GraphCreated(g0, g, BlocksOf(plans)) && PopulatedUpTo(Strip(g), f, plans, l, |plans|)
    requires AllSized(g, plans, l, |plans|) && AllAsDescribed(bbs, descriptions, |descriptions|, plans, g)
    ensures Generated(bbs, descriptions, plans, l, Strip(g0), f)
  {
    hide AllAsDescribed, AllSized, Emitted, Settled, Shaped, Fresh, Valid, PlansApart, Strip, BlocksOf, AllIds;
    PopulatedIsDescribed(bbs, descriptions, plans, l, g, f);
    forall j | 0 <= j < |plans| ensures Settled(bbs, plans[j], l, BlocksOf(plans)) {
      assert Ready(bbs, plans[j], l, BlocksOf(plans), true);
    }
    forall b | b in g0 ensures f[b] == Strip(g0)[b] {
      StripAt(g, b);
      StripAt(g0, b);
    }
  }

  /** Lays the subgraph out in new blocks and populates them. */
  method GenerateBlocks(context: MergeContext, descriptions: seq<Description>, ghost owners: Owners,
                        ghost gone: set<BlockId>)
    returns (plans: seq<Plan>)
    requires context.graph.Valid() && context.layoutInfo == map[]
    requires Sound(context.basicBlocks, descriptions, context.graph.blocks, owners, gone)
    modifies context, context.graph
    ensures context.graph.Valid() && Orders(plans) == NonEmptyOrders(descriptions, |descriptions|)
    ensures AllIds(plans) == DescribedIds(descriptions, |descriptions|)
    ensures Generated(context.basicBlocks, descriptions, plans, context.layoutInfo, Strip(old(context.graph.blocks)),
                      Strip(context.graph.blocks))
  {
    ghost var bbs, g0 := context.basicBlocks, context.graph.blocks;
    plans := context.CreateBlocks(descriptions);
    PlansSound(bbs, descriptions, g0, owners, gone, plans);
    NoneLaidOut(bbs, plans, context.layoutInfo);
    ghost var created := context.graph.blocks;
    context.LayOutBlocks(plans, g0, BlocksOf(plans));
    ghost var g := context.graph.blocks;
    SizedIsDescribed(bbs, descriptions, plans, context.layoutInfo, created, g);
    AllFillable(bbs, plans, context.layoutInfo, g0, g, g0.Keys - gone);
    context.PopulateBlocks(plans, Strip(g));
    PopulatedIsGenerated(bbs, descriptions, plans, context.layoutInfo, g0, g, Strip(context.graph.blocks));
  }

  // ----- where the references of the new blocks lead -----

  ghost predicate LeadInto(refs: ReferenceMap, blocks: set<BlockId>)
  {
    forall o :: o in refs ==> refs[o].referenced in blocks
  }

  lemma {:induction false} BothLeadInto(a: ReferenceMap, b: ReferenceMap, blocks: set<BlockId>)
    requires LeadInto(a, blocks) && LeadInto(b, blocks)
    ensures LeadInto(a + b, blocks)
  {
  }

  lemma {:induction false} ShiftedLeadInto(l: LayoutMap, references: map<int, BasicBlockReference>, size: nat,
                                           offset: int, blocks: set<BlockId>)
    requires Linkable(blocks, l, references)
    ensures LeadInto(ShiftedReferences(l, references, size, offset), blocks)
  {
    var shifted := ShiftedReferences(l, references, size, offset);
    forall x | x in shifted ensures shifted[x].referenced in blocks {
      ShiftedReferenceAt(l, references, size, offset, x);
    }
  }

  lemma {:induction false} InstructionsLeadInto(l: LayoutMap, instructions: seq<Instruction>, offset: int,
                                                blocks: set<BlockId>)
    requires InstructionsLink(blocks, l, instructions)
    ensures LeadInto(InstructionReferences(l, instructions, offset), blocks)
  {
    if instructions != [] {
      RestLinks(blocks, l, instructions);
      ShiftedLeadInto(l, instructions[0].references, |instructions[0].data|, offset, blocks);
      InstructionsLeadInto(l, instructions[1..], offset + |instructions[0].data|, blocks);
    }
  }

  lemma {:induction false} InfoLeadsInto(l: LayoutMap, info: BasicBlockLayoutInfo, blocks: set<BlockId>)
    requires InfoLinks(blocks, l, info)
    ensures LeadInto(InfoReferences(l, info), blocks)
  {
    if info.basicBlock.Code? {
      InstructionsLeadInto(l, info.basicBlock.instructions, info.startOffset, blocks);
    } else if info.basicBlock.Data? {
      ShiftedLeadInto(l, info.basicBlock.references, |info.basicBlock.data|, info.startOffset, blocks);
    }
    assert LeadInto(BodyReferences(l, info), blocks);
    BothLeadInto(BodyReferences(l, info), SlotReferences(l, info, 0), blocks);
  }

  lemma {:induction false} SectionsLeadInto(ss: seq<Section>, n: nat, blocks: set<BlockId>)
    requires n <= |ss| && forall k :: 0 <= k < |ss| ==> LeadInto(ss[k].references, blocks)
    ensures LeadInto(SectionReferences(ss, n), blocks)
  {
    if n > 0 {
      SectionsLeadInto(ss, n - 1, blocks);
      BothLeadInto(SectionReferences(ss, n - 1), ss[n - 1].references, blocks);
    }
  }

  lemma {:induction false} ImageLeadsInto(order: seq<BBId>, block: BlockId, l: LayoutMap, blocks: set<BlockId>)
    requires OrderLinks(blocks, order, block, l)
    ensures LeadInto(ImageReferences(order, block, l), blocks)
  {
    var ss := Sections(order, block, l);
    forall k | 0 <= k < |ss| ensures LeadInto(ss[k].references, blocks) {
      assert order[k] in order;
      InfoLeadsInto(l, l[order[k]], blocks);
      StartsBehindEnd(order, block, l, k);
      assert ss[k].references == InfoReferences(l, l[order[k]]);
    }
    SectionsLeadInto(ss, |order|, blocks);
  }

  // ----- the result -----

  /** What merging a subgraph does to the graph `f0`: the original block, if any, is gone; every other block is as it
      was, except that its recorded references lead to the starts of their basic blocks in the new blocks;
      and the new blocks are as described, with the bytes and references of their layouts. */
  ghost predicate MergedInto(bbs: map<BBId, BasicBlock>, descriptions: seq<Description>, plans: seq<Plan>,
                             l: LayoutMap, owners: Owners, gone: set<BlockId>, f0: Graph, f: Graph)
  {
    && BlocksOf(plans) !! f0.Keys && f.Keys == (f0.Keys - gone) + BlocksOf(plans)
    && (forall j :: 0 <= j < |plans| ==> Settled(bbs, plans[j], l, BlocksOf(plans)) && Emitted(f, plans[j], l))
    && (forall b :: b in f0 && b !in gone ==>
          f[b] == f0[b].(references := RedirectBlock(f0[b].references, b, owners, l, l.Keys)))
    && AllAsDescribed(bbs, descriptions, |descriptions|, plans, f)
  }

  lemma {:induction false} NewBlocksAvoid(bbs: map<BBId, BasicBlock>, descriptions: seq<Description>,
                                          plans: seq<Plan>, l: LayoutMap, f0: Graph, f: Graph, gone: set<BlockId>)
    requires Generated(bbs, descriptions, plans, l, f0, f) && gone <= f0.Keys
    requires forall j :: 0 <= j < |plans| ==> AllExist(bbs, plans[j].order, f0.Keys - gone)
    ensures forall j :: 0 <= j < |plans| ==> LeadInto(f[plans[j].block].references, f.Keys - gone)
  {
    var blocks := f.Keys - gone;
    LaidOutInNews(bbs, plans, l, BlocksOf(plans));
    forall j | 0 <= j < |plans| ensures LeadInto(f[plans[j].block].references, blocks) {
      BlockIsOneOf(plans, j);
      MoreExist(bbs, plans[j].order, f0.Keys - gone, blocks);
      OrderExists(bbs, plans[j], l, BlocksOf(plans), blocks);
      ImageLeadsInto(plans[j].order, plans[j].block, l, blocks);
    }
  }

  lemma {:induction false} PlanOf(plans: seq<Plan>, b: BlockId) returns (j: nat)
    requires b in BlocksOf(plans)
    ensures j < |plans| && plans[j].block == b
  {
    var last := |plans| - 1;
    if plans[last].block == b { j := last; } else { j := PlanOf(plans[..last], b); }
  }

  /** After the referrers have been transferred, nothing but the original block refers to it. */
  lemma {:induction false} OnlyItselfRefers(bbs: map<BBId, BasicBlock>, descriptions: seq<Description>, g0: Graph,
                                            g: Graph, owners: Owners, gone: set<BlockId>, plans: seq<Plan>,
                                            l: LayoutMap, f: Graph, b: BlockId, o: int)
    requires Sound(bbs, descriptions, g0, owners, gone) && Generated(bbs, descriptions, plans, l, Strip(g0), f)
    requires l.Keys == DescribedIds(descriptions, |descriptions|) && Strip(g) == Redirect(f, owners, l, l.Keys)
    requires forall j :: 0 <= j < |plans| ==> LeadInto(f[plans[j].block].references, f.Keys - gone)
    requires forall id :: id in l ==> l[id].block !in gone
    requires RefersInto(g, b, o, gone)
    ensures b in gone
  {
    StripAt(g, b);
    assert b in f && o in f[b].references;
    assert Strip(g)[b].references[o] == RedirectOne(f[b].references[o], (b, o), owners, l, l.Keys);
    if b in g0 {
      StripAt(g0, b);
      assert RefersInto(g0, b, o, gone);
    } else {
      var j := PlanOf(plans, b);
    }
  }

  lemma {:induction false} RedirectedIsMerged(bbs: map<BBId, BasicBlock>, descriptions: seq<Description>,
                                              plans: seq<Plan>, l: LayoutMap, owners: Owners, gone: set<BlockId>,
                                              f0: Graph, f: Graph, h: Graph)
    requires Generated(bbs, descriptions, plans, l, f0, f) && gone <= f0.Keys
    requires h == Redirect(f, owners, l, l.Keys) - gone
    requires forall r :: r in owners ==> r.0 in f0
    ensures MergedInto(bbs, descriptions, plans, l, owners, gone, f0, h)
  {
    hide AllAsDescribed, Emitted, Settled, PlansApart, BlocksOf, AllIds, RedirectBlock;
    RedirectedIsDescribed(bbs, descriptions, plans, f, owners, l, gone);
    forall j | 0 <= j < |plans| ensures Emitted(h, plans[j], l) {
      BlockIsOneOf(plans, j);
      StaysEmitted(f, plans[j], l, owners, h);
    }
  }

  lemma {:induction false} StaysEmitted(f: Graph, plan: Plan, l: LayoutMap, owners: Owners, h: Graph)
    requires Emitted(f, plan, l) && (forall r :: r in owners ==> r.0 != plan.block) && plan.block in h
    requires h[plan.block] == Redirect(f, owners, l, l.Keys)[plan.block]
    ensures Emitted(h, plan, l)
  {
    hide CanEmit, BlockImage, ImageReferences, RedirectBlock;
    NotRedirected(f[plan.block].references, plan.block, owners, l);
  }

  lemma {:induction false} NotRedirected(refs: ReferenceMap, b: BlockId, owners: Owners, l: LayoutMap)
    requires forall r :: r in owners ==> r.0 != b
    ensures RedirectBlock(refs, b, owners, l, l.Keys) == refs
  {
    assert forall o :: o in refs ==> RedirectOne(refs[o], (b, o), owners, l, l.Keys) == refs[o];
  }

  lemma {:induction false} NothingElseRefers(bbs: map<BBId, BasicBlock>, descriptions: seq<Description>, g0: Graph,
                                             g: Graph, owners: Owners, gone: set<BlockId>, plans: seq<Plan>,
                                             l: LayoutMap, f: Graph)
    requires Sound(bbs, descriptions, g0, owners, gone) && Generated(bbs, descriptions, plans, l, Strip(g0), f)
    requires l.Keys == DescribedIds(descriptions, |descriptions|) && Strip(g) == Redirect(f, owners, l, l.Keys)
    requires forall j :: 0 <= j < |plans| ==> LeadInto(f[plans[j].block].references, f.Keys - gone)
    requires forall id :: id in l ==> l[id].block !in gone
    ensures gone <= g.Keys && forall b: BlockId, o: int :: RefersInto(g, b, o, gone) ==> b in gone
  {
    hide LeadInto, Settled, Emitted, PlansApart, OrderSound, ReferrersExist;
    assert g.Keys == Strip(g).Keys;
    forall b: BlockId, o: int | RefersInto(g, b, o, gone)
      ensures b in gone
    {
      OnlyItselfRefers(bbs, descriptions, g0, g, owners, gone, plans, l, f, b, o);
    }
  }

  /** Transfers the referrers of the original block and removes it. */
  method ReplaceOriginal(context: MergeContext, ghost descriptions: seq<Description>, owners: Owners,
                         original: Option<BlockId>, ghost plans: seq<Plan>, ghost g0: Graph)
    requires context.graph.Valid() && Sound(context.basicBlocks, descriptions, g0, owners, Replaced(original))
    requires Generated(context.basicBlocks, descriptions, plans, context.layoutInfo, Strip(g0),
                       Strip(context.graph.blocks))
    requires Orders(plans) == NonEmptyOrders(descriptions, |descriptions|)
    modifies context.graph
    ensures context.graph.Valid()
    ensures MergedInto(context.basicBlocks, descriptions, plans, context.layoutInfo, owners, Replaced(original),
                       Strip(g0),
                       Strip(context.graph.blocks))
  {
    hide Sound, Generated, MergedInto, Mirrored, WellSized, LeadInto, ReferrersExist, Redirect, Strip;
    ghost var bbs, l, f := context.basicBlocks, context.layoutInfo, Strip(context.graph.blocks);
    Redirectable(bbs, descriptions, g0, owners, Replaced(original), plans, l, context.graph.blocks);
    context.TransferReferrers(owners);
    NothingElseRefers(bbs, descriptions, g0, context.graph.blocks, owners, Replaced(original), plans, l, f);
    context.RemoveOriginalBlock(original);
    RedirectedIsMerged(bbs, descriptions, plans, l, owners, Replaced(original), Strip(g0), f,
                       Strip(context.graph.blocks));
  }

  /** The blocks of the plans, one after the other. */
  function BlockList(plans: seq<Plan>): (r: seq<BlockId>)
    ensures |r| == |plans| && forall j :: 0 <= j < |plans| ==> r[j] == plans[j].block
  {
    if plans == [] then [] else BlockList(plans[..|plans| - 1]) + [plans[|plans| - 1].block]
  }

  class Builder {
    const graph: BlockGraph
    var newBlocks: seq<BlockId>

    constructor (graph: BlockGraph)
      ensures this.graph == graph && newBlocks == []
    {
      this.graph := graph;
      newBlocks := [];
    }

    /** Merges a subgraph into the block graph, unless an end block is followed by another basic block. */
    method Merge(basicBlocks: map<BBId, BasicBlock>, descriptions: seq<Description>, owners: Owners,
                 original: Option<BlockId>)
      returns (ok: bool, plans: seq<Plan>, ghost l: LayoutMap)
      requires graph.Valid() && Sound(basicBlocks, descriptions, graph.blocks, owners, Replaced(original))
      modifies this, graph
      ensures graph.Valid()
      ensures ok <==> forall i :: 0 <= i < |descriptions| ==>
        EndsLast(basicBlocks, descriptions[i].order, |descriptions[i].order|)
      ensures !ok ==> graph.blocks == old(graph.blocks)
      ensures ok ==> Orders(plans) == NonEmptyOrders(descriptions, |descriptions|)
      ensures newBlocks == if ok then old(newBlocks) + BlockList(plans) else old(newBlocks)
      ensures ok ==> MergedInto(basicBlocks, descriptions, plans, l, owners, Replaced(original),
                                Strip(old(graph.blocks)),
                                Strip(graph.blocks))
    {
      assert CanDescribe(basicBlocks, descriptions);
      hide Generated, MergedInto, Sound, CanDescribe, Mirrored, WellSized, Strip, Orders, NonEmptyOrders;
      ok := EndBlocksAreWellPlaced(basicBlocks, descriptions);
      plans, l := [], map[];
      if !ok {
        return;
      }
      ghost var g0 := graph.blocks;
      var context := new MergeContext(graph, basicBlocks);
      plans := GenerateBlocks(context, descriptions, owners, Replaced(original));
      l := context.layoutInfo;
      ReplaceOriginal(context, descriptions, owners, original, plans, g0);
      newBlocks := newBlocks + BlockList(plans);
    }
  }

  lemma {:induction false} KeptByGeneration(bbs: map<BBId, BasicBlock>, descriptions: seq<Description>,
                                            plans: seq<Plan>, l: LayoutMap, f0: Graph, f: Graph, b: BlockId)
    requires Generated(bbs, descriptions, plans, l, f0, f) && b in f0
    ensures b in f && f[b] == f0[b]
  {
    hide Settled, Emitted, PlansApart;
  }

  lemma {:induction false} Redirectable(bbs: map<BBId, BasicBlock>, descriptions: seq<Description>, g0: Graph,
                                        owners: Owners, gone: set<BlockId>, plans: seq<Plan>, l: LayoutMap, g: Graph)
    requires Sound(bbs, descriptions, g0, owners, gone) && Generated(bbs, descriptions, plans, l, Strip(g0), Strip(g))
    requires Orders(plans) == NonEmptyOrders(descriptions, |descriptions|)
    ensures ReferrersExist(Strip(g), owners) && l.Keys == DescribedIds(descriptions, |descriptions|)
    ensures forall id :: id in l ==> l[id].block in g && l[id].block !in gone
    ensures forall j :: 0 <= j < |plans| ==> LeadInto(Strip(g)[plans[j].block].references, Strip(g).Keys - gone)
    ensures forall r :: r in owners ==> r.0 in Strip(g0)
    ensures gone <= g.Keys && gone <= g0.Keys
    ensures forall j :: 0 <= j < |plans| ==> plans[j].block in Strip(g)
  {
    hide Settled, Emitted, OrderSound, CanDescribe, LeadInto, AllExist, AllWellFormed, PlansApart, Strip;
    PlansSound(bbs, descriptions, g0, owners, gone, plans);
    LaidOutInNews(bbs, plans, l, BlocksOf(plans));
    NewBlocksAvoid(bbs, descriptions, plans, l, Strip(g0), Strip(g), gone);
    assert g.Keys == Strip(g).Keys;
    forall j | 0 <= j < |plans| ensures plans[j].block in Strip(g) { BlockIsOneOf(plans, j); }
    forall r | r in owners
      ensures r.0 in Strip(g) && r.1 in Strip(g)[r.0].references && Strip(g)[r.0].references[r.1].size > 0
    {
      KeptByGeneration(bbs, descriptions, plans, l, Strip(g0), Strip(g), r.0);
    }
  }

  /** Merging preserves control flow exactly if no short second branch is out of reach. Then running a new block
      from behind the instructions of any of its basic blocks, through its branches and the padding behind
      them, reaches the start of the basic block that the subgraph selects, or leaves through the reference
      to the block that it selects. */
  lemma {:induction false} MergePreservesControlFlow(bbs: map<BBId, BasicBlock>, descriptions: seq<Description>,
                                                     plans: seq<Plan>, l: LayoutMap, owners: Owners,
                                                     gone: set<BlockId>, f0: Graph, f: Graph, j: nat)
    requires MergedInto(bbs, descriptions, plans, l, owners, gone, f0, f) && j < |plans|
    requires |f[plans[j].block].data| < 0x8000_0000
    ensures CanEmit(plans[j].order, plans[j].block, l) && OrderLowered(plans[j].order, plans[j].block, l)
    ensures ControlFlowPreserved(plans[j].order, plans[j].block, l) <==>
      forall id :: id in plans[j].order ==> SecondHasRoom(l, l[id])
    ensures (forall id :: id in plans[j].order ==> SecondHasRoom(l, l[id])) ==> AllRun(f, plans[j], l)
  {
    var plan := plans[j];
    BuilderPreservesControlFlow(bbs, plan, l, BlocksOf(plans));
    if forall id :: id in plan.order ==> SecondHasRoom(l, l[id]) {
      LaidOutFitsIff(plan.order, plan.block, l);
      forall k, flags | 0 <= k < |plan.order| && HasBranches(plan.order, l, k)
        ensures RunsTo(f, plan, l, k, flags)
      {
        ExecutionFollowsSubgraph(plan.order, plan.block, l, k, flags);
      }
    }
  }

  /** If the order is safe, which can be seen from the subgraph alone, merging preserves control flow. */
  lemma {:induction false} SafeMergePreservesControlFlow(bbs: map<BBId, BasicBlock>, descriptions: seq<Description>,
                                                         plans: seq<Plan>, l: LayoutMap, owners: Owners,
                                                         gone: set<BlockId>, f0: Graph, f: Graph, j: nat)
    requires MergedInto(bbs, descriptions, plans, l, owners, gone, f0, f) && j < |plans|
    requires SafeOrder(bbs, plans[j].order)
    requires |f[plans[j].block].data| < 0x8000_0000
    ensures CanEmit(plans[j].order, plans[j].block, l) && OrderLowered(plans[j].order, plans[j].block, l)
    ensures ControlFlowPreserved(plans[j].order, plans[j].block, l)
    ensures AllRun(f, plans[j], l)
  {
    MergePreservesControlFlow(bbs, descriptions, plans, l, owners, gone, f0, f, j);
    LaidOutFitsIff(plans[j].order, plans[j].block, l);
  }

  /** Running the block from behind the instructions of any of its basic blocks gets to where the subgraph
      says. */
  ghost predicate AllRun(f: Graph, plan: Plan, l: LayoutMap)
    requires plan.block in f && CanEmit(plan.order, plan.block, l) && OrderLowered(plan.order, plan.block, l)
  {
    forall k, flags :: 0 <= k < |plan.order| && HasBranches(plan.order, l, k) ==> RunsTo(f, plan, l, k, flags)
  }

  /** Running the block from behind the instructions of the basic block at position `k` gets to where the
      subgraph says. */
  ghost predicate RunsTo(f: Graph, plan: Plan, l: LayoutMap, k: nat, flags: Flags)
    requires plan.block in f && k < |plan.order| && CanEmit(plan.order, plan.block, l)
    requires HasBranches(plan.order, l, k) && Lowers(l, l[plan.order[k]], Next(plan.order, k))
  {
    var succs := l[plan.order[k]].basicBlock.successors;
    Reaches(f[plan.block].data, f[plan.block].references, plan.block, flags,
            In(BranchStart(l[plan.order[k]], 0)), Where(l, plan.block, succs[Selected(succs, flags)].reference))
  }
}
