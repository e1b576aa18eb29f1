/** All blocks of a subgraph: the plans for the new blocks and what is known of them while they are built. */
module BuilderPlans {
  import opened Types
  import opened BasicBlocks
  import opened Layout
  import opened LayoutTheorems
  import opened BuilderSpecs
  import opened GraphSpecs

  // ----- initialization -----

  /** Layout `now` is layout `l` with initial records for the first `k` basic blocks of the order. */
  ghost predicate InitializedUpTo(bbs: map<BBId, BasicBlock>, order: seq<BBId>, block: BlockId, l: LayoutMap,
                                  now: LayoutMap, k: nat)
    requires k <= |order|
    requires CanInitialize(bbs, order)
  {
    KeysUpTo(order, l.Keys, now.Keys, k) && OthersKept(order, l, now) && RecordsUpTo(bbs, order, block, now, k)
  }

  ghost predicate KeysUpTo(order: seq<BBId>, before: set<BBId>, now: set<BBId>, k: nat)
  {
    forall id :: id in now <==> id in before || (id in order && IndexOf(order, id) < k)
  }

  ghost predicate OthersKept(order: seq<BBId>, l: LayoutMap, now: LayoutMap)
  {
    forall id :: id in l && id !in order ==> id in now && now[id] == l[id]
  }

  ghost predicate RecordsUpTo(bbs: map<BBId, BasicBlock>, order: seq<BBId>, block: BlockId, now: LayoutMap, k: nat)
    requires k <= |order| && CanInitialize(bbs, order)
  {
    forall j :: 0 <= j < k ==>
      order[j] in now && now[order[j]] == InitialInfo(bbs[order[j]], block, Next(order, j))
  }

  lemma {:induction false} NoneInitialized(bbs: map<BBId, BasicBlock>, order: seq<BBId>, block: BlockId, l: LayoutMap)
    requires CanInitialize(bbs, order)
    ensures InitializedUpTo(bbs, order, block, l, l, 0)
  {
  }

  lemma {:induction false} OneMoreKey(order: seq<BBId>, before: set<BBId>, now: set<BBId>, k: nat)
    requires Distinct(order) && k < |order| && KeysUpTo(order, before, now, k)
    ensures KeysUpTo(order, before, now + {order[k]}, k + 1)
  {
    IndexOfElement(order, k);
    hide Distinct;
    forall id ensures id in now + {order[k]} <==> id in before || (id in order && IndexOf(order, id) < k + 1) {
      assert id in now <==> id in before || (id in order && IndexOf(order, id) < k);
    }
  }

  lemma {:induction false} OneMoreRecord(bbs: map<BBId, BasicBlock>, order: seq<BBId>, block: BlockId, now: LayoutMap,
                                         k: nat, after: LayoutMap)
    requires Distinct(order) && k < |order| && CanInitialize(bbs, order) && RecordsUpTo(bbs, order, block, now, k)
    requires after == now[order[k] := InitialInfo(bbs[order[k]], block, Next(order, k))]
    ensures RecordsUpTo(bbs, order, block, after, k + 1)
  {
    hide InitialInfo;
    forall j | 0 <= j < k + 1
      ensures order[j] in after && after[order[j]] == InitialInfo(bbs[order[j]], block, Next(order, j))
    {
      assert j < k ==> order[j] != order[k];
    }
  }

  lemma {:induction false} InitializeOneMore(bbs: map<BBId, BasicBlock>, order: seq<BBId>, block: BlockId, l: LayoutMap,
                                             now: LayoutMap, k: nat)
    requires Distinct(order) && k < |order|
    requires CanInitialize(bbs, order)
    requires InitializedUpTo(bbs, order, block, l, now, k)
    ensures var info := InitialInfo(bbs[order[k]], block, Next(order, k));
      InitializedUpTo(bbs, order, block, l, now[order[k] := info], k + 1)
  {
    hide InitialInfo, KeysUpTo, RecordsUpTo, Distinct;
    var after := now[order[k] := InitialInfo(bbs[order[k]], block, Next(order, k))];
    OneMoreKey(order, l.Keys, now.Keys, k);
    OneMoreRecord(bbs, order, block, now, k, after);
    assert after.Keys == now.Keys + {order[k]};
  }

  // ----- the plans -----

  function BlocksOf(plans: seq<Plan>): set<BlockId>
  {
    if plans == [] then {} else BlocksOf(plans[..|plans| - 1]) + {plans[|plans| - 1].block}
  }

  function IdsOf(order: seq<BBId>): set<BBId> { set id | id in order }

  function AllIds(plans: seq<Plan>): set<BBId>
  {
    if plans == [] then {} else AllIds(plans[..|plans| - 1]) + IdsOf(plans[|plans| - 1].order)
  }

  /** The orders share no basic block. */
  predicate OrdersApart(a: seq<BBId>, b: seq<BBId>) { forall id :: id in a ==> id !in b }

  /** Different plans have different blocks and share no basic block. */
  ghost predicate PlansApart(plans: seq<Plan>)
  {
    forall i, j :: 0 <= i < j < |plans| ==>
      plans[i].block != plans[j].block && OrdersApart(plans[i].order, plans[j].order)
  }

  lemma {:induction false} BlockIsOneOf(plans: seq<Plan>, i: nat)
    requires i < |plans|
    ensures plans[i].block in BlocksOf(plans)
    ensures forall id :: id in plans[i].order ==> id in AllIds(plans)
  {
    if i < |plans| - 1 { BlockIsOneOf(plans[..|plans| - 1], i); }
  }

  /** Initial layout records have been made for the basic blocks of all plans. */
  ghost predicate LayoutCreated(bbs: map<BBId, BasicBlock>, plans: seq<Plan>, l: LayoutMap)
  {
    PlansApart(plans) && l.Keys == AllIds(plans) && forall i :: 0 <= i < |plans| ==> Begun(bbs, plans[i], l)
  }

  /** New blocks have been made, without references; the blocks that were there before are as they were. */
  ghost predicate GraphCreated(g0: Graph, g: Graph, news: set<BlockId>)
  {
    && news !! g0.Keys && g.Keys == g0.Keys + news
    && (forall b :: b in g0 ==> g[b] == g0[b])
    && (forall b :: b in news ==> g[b].references == map[])
  }

  lemma {:induction false} InOtherBlock(bbs: map<BBId, BasicBlock>, order: seq<BBId>, block: BlockId, l: LayoutMap,
                                        l': LayoutMap, id: BBId)
    requires CanInitialize(bbs, order) && InitializedUpTo(bbs, order, block, l, l', |order|) && id in order
    ensures id in l' && l'[id].block == block
  {
    assert order[IndexOf(order, id)] == id;
  }

  lemma {:induction false} StaysBegun(bbs: map<BBId, BasicBlock>, plan: Plan, l: LayoutMap, order: seq<BBId>,
                                      block: BlockId, l': LayoutMap)
    requires Begun(bbs, plan, l) && CanInitialize(bbs, order) && InitializedUpTo(bbs, order, block, l, l', |order|)
    requires plan.block != block && forall id :: id in order ==> id !in l
    ensures Begun(bbs, plan, l')
  {
    forall id | id in order ensures l'[id].block == block { InOtherBlock(bbs, order, block, l, l', id); }
  }

  lemma {:induction false} NowBegun(bbs: map<BBId, BasicBlock>, l: LayoutMap, plan: Plan, l': LayoutMap)
    requires Distinct(plan.order) && CanInitialize(bbs, plan.order)
    requires InitializedUpTo(bbs, plan.order, plan.block, l, l', |plan.order|)
    requires forall id :: id in l ==> l[id].block != plan.block
    requires forall id :: id in plan.order ==> id !in l
    ensures Begun(bbs, plan, l')
  {
  }

  lemma {:induction false} NotInLayout(bbs: map<BBId, BasicBlock>, plans: seq<Plan>, l: LayoutMap, block: BlockId)
    requires (forall i :: 0 <= i < |plans| ==> Begun(bbs, plans[i], l)) && block !in BlocksOf(plans)
    ensures forall id :: id in AllIds(plans) ==> id in l && l[id].block != block
  {
    if plans != [] {
      var last := plans[|plans| - 1];
      NotInLayout(bbs, plans[..|plans| - 1], l, block);
      forall id | id in last.order ensures id in l && l[id].block != block {
        assert l[last.order[IndexOf(last.order, id)]].block == last.block;
      }
    }
  }

  lemma {:induction false} StillApart(plans: seq<Plan>, plan: Plan)
    requires PlansApart(plans) && plan.block !in BlocksOf(plans)
    requires forall id :: id in plan.order ==> id !in AllIds(plans)
    ensures PlansApart(plans + [plan])
    ensures BlocksOf(plans + [plan]) == BlocksOf(plans) + {plan.block}
    ensures AllIds(plans + [plan]) == AllIds(plans) + IdsOf(plan.order)
  {
    var all := plans + [plan];
    assert all[..|all| - 1] == plans;
    forall i | 0 <= i < |plans| ensures all[i].block != plan.block && OrdersApart(all[i].order, plan.order) {
      BlockIsOneOf(plans, i);
    }
  }

  /** One more block. */
  lemma {:induction false} CreateNext(bbs: map<BBId, BasicBlock>, plans: seq<Plan>, l: LayoutMap, plan: Plan,
                                      l': LayoutMap)
    requires LayoutCreated(bbs, plans, l) && Distinct(plan.order) && CanInitialize(bbs, plan.order)
    requires plan.block !in BlocksOf(plans) && (forall id :: id in plan.order ==> id !in l)
    requires InitializedUpTo(bbs, plan.order, plan.block, l, l', |plan.order|)
    ensures LayoutCreated(bbs, plans + [plan], l')
  {
    hide Begun, PlansApart, CanInitialize, Distinct, InitialInfo, IndexOf;
    StillApart(plans, plan);
    NotInLayout(bbs, plans, l, plan.block);
    NowBegun(bbs, l, plan, l');
    forall i | 0 <= i < |plans| ensures Begun(bbs, plans[i], l') {
      BlockIsOneOf(plans, i);
      StaysBegun(bbs, plans[i], l, plan.order, plan.block, l');
    }
  }

  // ----- laying the orders out, one after the other -----

  /** A plan that has been laid out, or one that is still as it was initialized. */
  ghost predicate Ready(bbs: map<BBId, BasicBlock>, plan: Plan, l: LayoutMap, news: set<BlockId>, done: bool)
  {
    if done then Settled(bbs, plan, l, news)
    else Shaped(bbs, plan, l, news) && Valid(plan.order, plan.block, l) && Fresh(plan.order, l)
  }

  /** The first `i` plans have been laid out. */
  ghost predicate LaidOutUpTo(bbs: map<BBId, BasicBlock>, plans: seq<Plan>, l: LayoutMap, news: set<BlockId>, i: nat)
  {
    PlansApart(plans) && forall j :: 0 <= j < |plans| ==> Ready(bbs, plans[j], l, news, j < i)
  }

  lemma {:induction false} NoneLaidOut(bbs: map<BBId, BasicBlock>, plans: seq<Plan>, l: LayoutMap)
    requires LayoutCreated(bbs, plans, l)
    requires forall j :: 0 <= j < |plans| ==> AllWellFormed(bbs, plans[j].order, l.Keys, BlocksOf(plans))
    ensures LaidOutUpTo(bbs, plans, l, BlocksOf(plans), 0)
  {
    forall j | 0 <= j < |plans| ensures Ready(bbs, plans[j], l, BlocksOf(plans), false) {
      BlockIsOneOf(plans, j);
      BegunIsShaped(bbs, plans[j], l, BlocksOf(plans));
      BegunIsValid(bbs, plans[j], l, BlocksOf(plans));
    }
  }

  lemma {:induction false} StaysReady(bbs: map<BBId, BasicBlock>, plan: Plan, l: LayoutMap, r: LayoutMap,
                                      news: set<BlockId>, done: bool)
    requires Ready(bbs, plan, l, news, done) && SameOrder(plan.order, l, r)
    ensures Ready(bbs, plan, r, news, done)
  {
    if done {
      StaysSettled(bbs, plan, l, r, news);
    } else {
      StaysShaped(bbs, plan, l, r, news);
      StaysFresh(plan.order, plan.block, l, r);
    }
  }

  /** Two different plans, in either order. */
  lemma {:induction false} ApartEitherWay(plans: seq<Plan>, i: nat, j: nat)
    requires PlansApart(plans) && i < |plans| && j < |plans| && i != j
    ensures plans[i].block != plans[j].block && OrdersApart(plans[i].order, plans[j].order)
  {
    if i > j {
      assert OrdersApart(plans[j].order, plans[i].order);
    }
  }

  /** Laying one more order out. */
  lemma {:induction false} LayOutNext(bbs: map<BBId, BasicBlock>, plans: seq<Plan>, l: LayoutMap, r: LayoutMap,
                                      news: set<BlockId>, i: nat)
    requires LaidOutUpTo(bbs, plans, l, news, i) && i < |plans| && Valid(plans[i].order, plans[i].block, l)
    requires r == Relax(plans[i].order, plans[i].block, l)
    ensures LaidOutUpTo(bbs, plans, r, news, i + 1) && r.Keys == l.Keys
    ensures forall j :: 0 <= j < |plans| && j != i ==> SameOrder(plans[j].order, l, r)
  {
    assert Ready(bbs, plans[i], l, news, false);
    RelaxSettles(bbs, plans[i], l, news);
    RelaxKeepsShape(plans[i].order, plans[i].block, l);
    forall j | 0 <= j < |plans| && j != i
      ensures SameOrder(plans[j].order, l, r) && Ready(bbs, plans[j], r, news, j < i)
    {
      ApartEitherWay(plans, j, i);
      OthersUntouched(plans[j].order, plans[i].order, l, r);
      StaysReady(bbs, plans[j], l, r, news, j < i);
    }
  }

  // ----- the sizes of the new blocks -----

  /** The new block has the size of its layout, and data to be written. */
  ghost predicate Sized(g: Graph, plan: Plan, l: LayoutMap)
  {
    && plan.block in g && Valid(plan.order, plan.block, l)
    && g[plan.block].size == |g[plan.block].data| == EndOf(plan.order, l, |plan.order|)
  }

  lemma {:induction false} StaysSized(g: Graph, h: Graph, plan: Plan, l: LayoutMap, r: LayoutMap)
    requires Sized(g, plan, l) && SameOrder(plan.order, l, r) && Valid(plan.order, plan.block, r)
    requires plan.block in h && h[plan.block] == g[plan.block]
    ensures Sized(h, plan, r)
  {
    if plan.order != [] { SameStarts(plan.order, plan.block, l, r, |plan.order| - 1); }
  }

  lemma {:induction false} GraphGrows(g0: Graph, g: Graph, h: Graph, news: set<BlockId>, block: BlockId,
                                      news': set<BlockId>)
    requires GraphCreated(g0, g, news) && block !in g && news' == news + {block}
    requires h.Keys == g.Keys + {block} && (forall b :: b in g ==> h[b] == g[b]) && h[block].references == map[]
    ensures GraphCreated(g0, h, news')
  {
  }

  // ----- references that can be set -----

  /** The references take up space, and those to blocks lead to blocks of the graph. */
  predicate ReferencesExist(references: map<int, BasicBlockReference>, blocks: set<BlockId>)
  {
    forall o :: o in references ==> references[o].size > 0 && (references[o].ToBlock? ==> references[o].block in blocks)
  }

  predicate BlockExists(bb: BasicBlock, blocks: set<BlockId>)
  {
    match bb
    case Code(_, instructions, successors) =>
      && (forall i :: 0 <= i < |instructions| ==> ReferencesExist(instructions[i].references, blocks))
      && (forall i :: 0 <= i < |successors| && successors[i].reference.ToBlock? ==>
            successors[i].reference.block in blocks)
    case Data(_, _, references) => ReferencesExist(references, blocks)
    case End(_) => true
  }

  /** All blocks that the basic blocks of the order refer to exist. */
  ghost predicate AllExist(bbs: map<BBId, BasicBlock>, order: seq<BBId>, blocks: set<BlockId>)
  {
    forall j :: 0 <= j < |order| ==> order[j] in bbs && BlockExists(bbs[order[j]], blocks)
  }
}
