/** Where the parts of a decomposed block are after a merge: the bytes, the references and the continuation of
    every cut, in the new block of its basic block. */
module Landings {
  import opened Types
  import opened Conditions
  import opened ByteStrings
  import opened BasicBlocks
  import opened Layout
  import opened LayoutTheorems
  import opened Emission
  import opened ControlFlow
  import opened BuilderSpecs
  import opened BuilderPlans
  import opened GraphSpecs
  import opened Redirection
  import opened BlockBuilder
  import opened Merge
  import D = Decomposition
  import opened SubGraphs

  // ----- the bytes of a cut -----

  lemma {:induction false} BytesOfOneMore(s: seq<Instruction>, i: Instruction)
    ensures InstructionBytes(s + [i]) == InstructionBytes(s) + i.data
  {
    if s == [] {
      assert s + [i] == [i] && [i][1..] == [];
    } else {
      assert (s + [i])[1..] == s[1..] + [i];
      BytesOfOneMore(s[1..], i);
    }
  }

  lemma {:induction false} FewerHeld(id: BlockId, b: Block, start: int, s: seq<D.Insn>, t: seq<Instruction>)
    requires 0 < |t| <= |s| && HoldsInstructions(id, b, start, s, t)
    ensures HoldsInstructions(id, b, start, s, t[..|t| - 1])
    ensures HoldsInstruction(id, b, start + D.Bytes(s[..|t| - 1]), s[|t| - 1].size, t[|t| - 1])
  {
    hide HoldsInstruction, D.Bytes;
  }

  /** `t` is the bytes of the code from `lo` to `hi`. */
  predicate IsCode(data: seq<uint8>, lo: int, hi: int, t: seq<uint8>)
  {
    0 <= lo <= hi <= |data| && t == data[lo..hi]
  }

  lemma {:induction false} CodeGoesOn(id: BlockId, b: Block, lo: int, mid: int, size: nat, t: seq<uint8>,
                                      i: Instruction)
    requires IsCode(b.data, lo, mid, t) && HoldsInstruction(id, b, mid, size, i)
    ensures IsCode(b.data, lo, mid + size, t + i.data)
  {
  }

  lemma {:induction false} NoCode(b: Block, start: int, s: seq<D.Insn>)
    requires 0 <= start <= |b.data|
    ensures IsCode(b.data, start, start + D.Bytes(s[..0]), InstructionBytes([]))
  {
  }

  /** Copied instructions have the bytes of the code. */
  lemma {:induction false} InstructionsAreCode(id: BlockId, b: Block, start: int, s: seq<D.Insn>, t: seq<Instruction>)
    requires |t| <= |s| && HoldsInstructions(id, b, start, s, t) && 0 <= start <= |b.data|
    ensures IsCode(b.data, start, start + D.Bytes(s[..|t|]), InstructionBytes(t))
    decreases |t|
  {
    hide D.Bytes, InstructionBytes, HoldsInstructions, HoldsInstruction, IsCode;
    if t == [] {
      NoCode(b, start, s);
      return;
    }
    var last := |t| - 1;
    FewerHeld(id, b, start, s, t);
    InstructionsAreCode(id, b, start, s, t[..last]);
    D.BytesUpTo(s, last);
    CodeGoesOn(id, b, start, start + D.Bytes(s[..last]), s[last].size, InstructionBytes(t[..last]), t[last]);
    BytesOfOneMore(t[..last], t[last]);
    assert t == t[..last] + [t[last]];
  }

  // ----- the references of a cut -----

  /** A reference of the old block and what has become of it: one to the block itself leads to where its target
      is now, the others are as they were. */
  predicate KeepsReference(l: LayoutMap, id: BlockId, was: Reference, now: Reference)
  {
    if was.referenced == id then was.base in l && LeadsToStart(l, was.base, was, now) else now == was
  }

  /** The references at `at` are those that were at `lo`: none is lost, none is new. */
  ghost predicate CarriesReferences(l: LayoutMap, id: BlockId, references: ReferenceMap, lo: int, size: nat,
                                    now: ReferenceMap, at: int)
  {
    forall k :: 0 <= k < size ==> CarriesAt(l, id, references, lo, now, at, k)
  }

  predicate CarriesAt(l: LayoutMap, id: BlockId, references: ReferenceMap, lo: int, now: ReferenceMap, at: int, k: nat)
  {
    && (at + k in now <==> lo + k in references)
    && (lo + k in references && at + k in now ==> KeepsReference(l, id, references[lo + k], now[at + k]))
  }

  lemma {:induction false} CopiedAt(l: LayoutMap, id: BlockId, references: ReferenceMap, lo: int, size: nat,
                                    copied: map<int, BasicBlockReference>, at: int)
    requires CopiedReferences(id, references, lo, size, copied) && ReferencesResolve(l, copied)
    ensures CarriesReferences(l, id, references, lo, size, ShiftedReferences(l, copied, size, at), at)
  {
    forall k | 0 <= k < size
      ensures CarriesAt(l, id, references, lo, ShiftedReferences(l, copied, size, at), at, k)
    {
      ShiftedReferenceAt(l, copied, size, at, at + k);
      assert k in copied <==> Plus(lo, k) in references;
    }
  }

  lemma {:induction false} OneMoreResolves(l: LayoutMap, s: seq<Instruction>, i: Instruction)
    requires InstructionsResolve(l, s + [i])
    ensures InstructionsResolve(l, s) && ReferencesResolve(l, i.references)
    ensures s != [] ==> InstructionsResolve(l, s[1..] + [i]) && ReferencesResolve(l, s[0].references)
  {
    var all := s + [i];
    assert all[|s|] == i && forall k :: 0 <= k < |s| ==> all[k] == s[k];
    if s != [] {
      assert forall k :: 0 <= k < |s| ==> (s[1..] + [i])[k] == all[k + 1];
    }
  }

  lemma {:induction false} FirstReferences(l: LayoutMap, s: seq<Instruction>, offset: int)
    requires InstructionsResolve(l, s) && s != []
    ensures ReferencesResolve(l, s[0].references) && InstructionsResolve(l, s[1..])
    ensures InstructionReferences(l, s, offset) ==
      ShiftedReferences(l, s[0].references, |s[0].data|, offset)
        + InstructionReferences(l, s[1..], offset + |s[0].data|)
    ensures InstructionBytes(s) == s[0].data + InstructionBytes(s[1..])
  {
    assert forall i :: 0 <= i < |s[1..]| ==> s[1..][i] == s[i + 1];
  }

  lemma {:induction false} NoReferences(l: LayoutMap)
    ensures InstructionsResolve(l, []) && InstructionBytes([]) == []
    ensures forall o :: InstructionReferences(l, [], o) == map[]
  {
  }

  lemma {:induction false} JoinThree(a: ReferenceMap, b: ReferenceMap, c: ReferenceMap)
    ensures a + (b + c) == (a + b) + c
  {
  }

  lemma {:induction false} ReferencesOfOneMore(l: LayoutMap, s: seq<Instruction>, i: Instruction, offset: int)
    requires InstructionsResolve(l, s + [i]) && InstructionsResolve(l, s) && ReferencesResolve(l, i.references)
    ensures InstructionReferences(l, s + [i], offset) == InstructionReferences(l, s, offset)
      + ShiftedReferences(l, i.references, |i.data|, offset + |InstructionBytes(s)|)
  {
    hide InstructionsResolve, ShiftedReferences, InstructionReferences, InstructionBytes, ReferencesResolve;
    FirstReferences(l, s + [i], offset);
    if s == [] {
      assert s + [i] == [i] && [i][1..] == [];
      NoReferences(l);
      return;
    }
    OneMoreResolves(l, s, i);
    FirstReferences(l, s, offset);
    assert (s + [i])[1..] == s[1..] + [i] && (s + [i])[0] == s[0];
    ReferencesOfOneMore(l, s[1..], i, offset + |s[0].data|);
    JoinThree(ShiftedReferences(l, s[0].references, |s[0].data|, offset),
              InstructionReferences(l, s[1..], offset + |s[0].data|),
              ShiftedReferences(l, i.references, |i.data|, offset + |InstructionBytes(s)|));
  }

  lemma {:induction false} CarriesOn(l: LayoutMap, id: BlockId, references: ReferenceMap, lo: int, m: nat, n: nat,
                                     a: ReferenceMap, b: ReferenceMap, at: int)
    requires CarriesReferences(l, id, references, lo, m, a, at) && KeysWithin(a, at, at + m)
    requires CarriesReferences(l, id, references, lo + m, n, b, at + m) && KeysWithin(b, at + m, at + m + n)
    ensures CarriesReferences(l, id, references, lo, m + n, a + b, at)
  {
    hide KeepsReference;
    forall k | 0 <= k < m + n ensures CarriesAt(l, id, references, lo, a + b, at, k) {
      if k < m {
        assert CarriesAt(l, id, references, lo, a, at, k);
      } else {
        assert CarriesAt(l, id, references, lo + m, b, at + m, k - m);
      }
    }
  }

  /** Copied instructions have the references of the code. */
  lemma {:induction false} InstructionsCarry(id: BlockId, b: Block, start: int, s: seq<D.Insn>, t: seq<Instruction>,
                                             l: LayoutMap, at: int)
    requires |t| <= |s| && HoldsInstructions(id, b, start, s, t) && 0 <= start <= |b.data|
    requires InstructionsResolve(l, t)
    ensures |InstructionBytes(t)| == D.Bytes(s[..|t|])
    ensures CarriesReferences(l, id, b.references, start, D.Bytes(s[..|t|]), InstructionReferences(l, t, at), at)
    decreases |t|
  {
    hide D.Bytes, InstructionBytes, HoldsInstructions, HoldsInstruction, InstructionsResolve, InstructionReferences;
    hide CarriesReferences, ShiftedReferences, ReferencesResolve, KeysWithin;
    InstructionsAreCode(id, b, start, s, t);
    if t == [] {
      NothingCarried(l, id, b.references, start, s, at);
      return;
    }
    var last := |t| - 1;
    var i := t[last];
    assert t == t[..last] + [i];
    FewerHeld(id, b, start, s, t);
    OneMoreResolves(l, t[..last], i);
    InstructionsCarry(id, b, start, s, t[..last], l, at);
    D.BytesUpTo(s, last);
    ReferencesOfOneMore(l, t[..last], i, at);
    InstructionCarries(id, b, start + D.Bytes(s[..last]), s[last].size, i, l, at + D.Bytes(s[..last]));
    InstructionKeys(l, t[..last], at);
    CarriesOn(l, id, b.references, start, D.Bytes(s[..last]), s[last].size, InstructionReferences(l, t[..last], at),
              ShiftedReferences(l, i.references, |i.data|, at + |InstructionBytes(t[..last])|), at);
  }

  lemma {:induction false} NothingCarried(l: LayoutMap, id: BlockId, references: ReferenceMap, start: int,
                                          s: seq<D.Insn>, at: int)
    ensures CarriesReferences(l, id, references, start, D.Bytes(s[..0]), InstructionReferences(l, [], at), at)
  {
  }

  lemma {:induction false} InstructionCarries(id: BlockId, b: Block, o: int, size: nat, i: Instruction, l: LayoutMap,
                                              at: int)
    requires HoldsInstruction(id, b, o, size, i) && ReferencesResolve(l, i.references)
    ensures |i.data| == size && KeysWithin(ShiftedReferences(l, i.references, size, at), at, at + size)
    ensures CarriesReferences(l, id, b.references, o, size, ShiftedReferences(l, i.references, size, at), at)
  {
    CopiedAt(l, id, b.references, o, size, i.references, at);
    ShiftedKeys(l, i.references, size, at);
  }

  // ----- where a cut comes to lie -----

  /** The target that the cut goes on with. */
  function Chosen(c: D.Cut, f: Flags): D.Target
    requires c.CodeCut? && c.successors != []
  {
    if Holds(c.successors[0].condition, f) || |c.successors| == 1
    then c.successors[0].target else c.successors[1].target
  }

  /** Where a target is now, seen from `block`. */
  function Goal(l: LayoutMap, block: BlockId, t: D.Target): Control
    requires t.Here? ==> t.offset in l
  {
    match t
    case Here(o) =>
      if l[o].block == block then In(l[o].startOffset)
      else Gone(Reference(PC_RELATIVE_REF, POINTER_SIZE, l[o].block, l[o].startOffset, l[o].startOffset))
    case There(b, o, _, _) => Gone(Reference(PC_RELATIVE_REF, POINTER_SIZE, b, o, o))
  }

  /** What is in the cut, without its branch, is in its new block: the same bytes, and references to where their
      targets are now. */
  ghost predicate BodyLanded(id: BlockId, b: Block, c: D.Cut, l: LayoutMap, f: Graph, s: int)
  {
    && s in l && l[s].block in f && 0 <= s && s + BodySize(c) <= |b.data|
    && At(f[l[s].block].data, l[s].startOffset, b.data[s..s + BodySize(c)])
    && CarriesReferences(l, id, b.references, s, BodySize(c), f[l[s].block].references, l[s].startOffset)
  }

  /** The code cut is in its new block, and what follows its instructions leads to where the cut goes on. */
  ghost predicate Landed(id: BlockId, b: Block, c: D.Cut, l: LayoutMap, f: Graph, s: int)
  {
    && c.CodeCut? && BodyLanded(id, b, c, l, f, s)
    && var to, now := l[s], f[l[s].block];
    && (c.successors != [] ==>
          forall flags {:trigger Chosen(c, flags)} ::
            && (Chosen(c, flags).Here? ==> Chosen(c, flags).offset in l)
            && Reaches(now.data, now.references, to.block, flags, In(to.startOffset + D.Bytes(c.instructions)),
                       Goal(l, to.block, Chosen(c, flags))))
  }

  lemma {:induction false} PlanWith(plans: seq<Plan>, id: BBId) returns (j: nat, k: nat)
    requires id in AllIds(plans)
    ensures j < |plans| && k < |plans[j].order| && plans[j].order[k] == id
  {
    var last := |plans| - 1;
    if id in plans[last].order {
      j := last;
      k :| 0 <= k < |plans[last].order| && plans[last].order[k] == id;
    } else {
      j, k := PlanWith(plans[..last], id);
    }
  }

  /** The record of a basic block in its plan. */
  lemma {:induction false} RecordOf(bbs: map<BBId, BasicBlock>, plan: Plan, l: LayoutMap, news: set<BlockId>, k: nat)
    requires Shaped(bbs, plan, l, news) && k < |plan.order|
    ensures plan.block in news
    ensures var id := plan.order[k];
      && id in bbs && id in l && l[id].basicBlock == bbs[id] && l[id].block == plan.block
      && l[id].basicBlockSize == BasicBlockSize(bbs[id]) && WellFormed(bbs[id], l.Keys, news)
  {
    assert ShapedAt(bbs, plan, l, news, k);
  }

  /** The subgraph selects the successor that stands for the one the cut goes on with. */
  lemma {:induction false} SelectsChosen(c: D.Cut, succs: seq<Successor>, l: LayoutMap, news: set<BlockId>,
                                         block: BlockId, f: Flags)
    requires c.CodeCut? && c.successors != [] && ResolvedSuccessors(c.successors, succs) && HasValidSuccessors(succs)
    requires forall i :: 0 <= i < |succs| ==> Resolvable(succs[i].reference, l.Keys, news)
    requires block in news
    ensures Chosen(c, f).Here? ==> Chosen(c, f).offset in l
    ensures Resolvable(succs[Selected(succs, f)].reference, l.Keys, news)
    ensures Where(l, block, succs[Selected(succs, f)].reference) == Goal(l, block, Chosen(c, f))
  {
    var j := Selected(succs, f);
    assert Resolves(c.successors[j], succs[j]) && Resolves(c.successors[0], succs[0]);
  }

  lemma {:induction false} CutIsCode(id: BlockId, b: Block, s: int, c: D.Cut, bb: BasicBlock)
    requires HoldsCut(id, b, s, c, bb) && 0 <= s <= |b.data|
    ensures BasicBlockSize(bb) == BodySize(c)
    ensures IsCode(b.data, s, s + BodySize(c), BodyBytes(bb))
  {
    hide HoldsInstructions, ResolvedSuccessors, D.Bytes, InstructionBytes;
    if c.CodeCut? {
      InstructionsAreCode(id, b, s, c.instructions, bb.instructions);
      assert c.instructions[..|c.instructions|] == c.instructions;
    }
  }

  lemma {:induction false} CutCarries(id: BlockId, b: Block, s: int, c: D.Cut, l: LayoutMap, info: BasicBlockLayoutInfo)
    requires HoldsCut(id, b, s, c, info.basicBlock) && 0 <= s <= |b.data| && Emittable(l, info)
    ensures CarriesReferences(l, id, b.references, s, BodySize(c), BodyReferences(l, info), info.startOffset)
  {
    hide HoldsInstructions, ResolvedSuccessors, D.Bytes, InstructionBytes, InstructionsResolve, CopiedReferences;
    hide CarriesReferences, InstructionReferences, ShiftedReferences;
    if c.CodeCut? {
      InstructionsCarry(id, b, s, c.instructions, info.basicBlock.instructions, l, info.startOffset);
      assert c.instructions[..|c.instructions|] == c.instructions;
    } else {
      CopiedAt(l, id, b.references, s, c.size, info.basicBlock.references, info.startOffset);
    }
  }

  /** The bytes of a cut, in the block of the plan. */
  lemma {:induction false} BytesLand(id: BlockId, b: Block, c: D.Cut, bbs: map<BBId, BasicBlock>, plan: Plan,
                                     l: LayoutMap, news: set<BlockId>, f: Graph, k: nat)
    requires Shaped(bbs, plan, l, news) && Emitted(f, plan, l) && k < |plan.order|
    requires plan.order[k] in bbs && HoldsCut(id, b, plan.order[k], c, bbs[plan.order[k]])
    requires plan.order[k] <= |b.data|
    ensures var s := plan.order[k];
      && s in l && l[s].block == plan.block && plan.block in f && l[s].basicBlockSize == BodySize(c)
      && s + BodySize(c) <= |b.data|
      && At(f[plan.block].data, l[s].startOffset, b.data[s..s + BodySize(c)])
  {
    hide Shaped, CanEmit, HoldsCut, BodySize, BodyBytes, WellFormed, At;
    var s := plan.order[k];
    BodyInImage(plan.order, plan.block, l, k);
    RecordOf(bbs, plan, l, news, k);
    CutIsCode(id, b, s, c, bbs[s]);
  }

  lemma {:induction false} ReferencesLandAt(plan: Plan, l: LayoutMap, id: BlockId, references: ReferenceMap, k: nat,
                                            now: ReferenceMap, size: nat)
    requires CanEmit(plan.order, plan.block, l) && k < |plan.order|
    requires now == ImageReferences(plan.order, plan.block, l) && size == l[plan.order[k]].basicBlockSize
    requires CarriesReferences(l, id, references, plan.order[k], size, BodyReferences(l, l[plan.order[k]]),
                               l[plan.order[k]].startOffset)
    ensures CarriesReferences(l, id, references, plan.order[k], size, now, l[plan.order[k]].startOffset)
  {
    hide CanEmit, CanEmitInfo, Emittable, BodyReferences, ImageReferences, KeepsReference;
    CanEmitAt(plan.order, plan.block, l, k);
    var s := plan.order[k];
    var at, body := l[s].startOffset, BodyReferences(l, l[s]);
    forall i | 0 <= i < size ensures CarriesAt(l, id, references, s, now, at, i) {
      assert CarriesAt(l, id, references, s, body, at, i);
      BodyReferencesInImage(plan.order, plan.block, l, k, at + i);
    }
  }

  lemma {:induction false} CanEmitAt(order: seq<BBId>, block: BlockId, l: LayoutMap, k: nat)
    requires CanEmit(order, block, l) && k < |order|
    ensures order[k] in l && CanEmitInfo(l, l[order[k]]) && Emittable(l, l[order[k]])
  {
  }

  /** A cut without its branch, in the block of the plan. */
  lemma {:induction false} BodyLands(id: BlockId, b: Block, c: D.Cut, bbs: map<BBId, BasicBlock>, plan: Plan,
                                     l: LayoutMap, news: set<BlockId>, f: Graph, k: nat)
    requires Shaped(bbs, plan, l, news) && Emitted(f, plan, l) && k < |plan.order|
    requires plan.order[k] in bbs && HoldsCut(id, b, plan.order[k], c, bbs[plan.order[k]])
    requires plan.order[k] <= |b.data|
    ensures var s := plan.order[k];
      BodyLanded(id, b, c, l, f, s) && l[s].block == plan.block && l[s].basicBlockSize == BodySize(c)
  {
    hide Shaped, CanEmit, HoldsCut, BodySize, BodyReferences, WellFormed, At, CarriesReferences, Emittable, CanEmitInfo;
    var s := plan.order[k];
    BytesLand(id, b, c, bbs, plan, l, news, f, k);
    RecordOf(bbs, plan, l, news, k);
    CanEmitAt(plan.order, plan.block, l, k);
    CutCarries(id, b, s, c, l, l[s]);
    ReferencesLandAt(plan, l, id, b.references, k, f[plan.block].references, BodySize(c));
  }

  /** What follows the instructions of a cut, in the block of the plan. */
  lemma {:induction false} BranchesLand(id: BlockId, b: Block, c: D.Cut, bbs: map<BBId, BasicBlock>, plan: Plan,
                                        l: LayoutMap, news: set<BlockId>, f: Graph, k: nat, flags: Flags)
    requires Shaped(bbs, plan, l, news) && Emitted(f, plan, l) && k < |plan.order| && c.CodeCut? && c.successors != []
    requires plan.order[k] in bbs && HoldsCut(id, b, plan.order[k], c, bbs[plan.order[k]])
    requires OrderLowered(plan.order, plan.block, l)
    requires HasBranches(plan.order, l, k) ==> RunsTo(f, plan, l, k, flags)
    ensures Chosen(c, flags).Here? ==> Chosen(c, flags).offset in l
    ensures var s := plan.order[k];
      Reaches(f[plan.block].data, f[plan.block].references, plan.block, flags,
              In(l[s].startOffset + l[s].basicBlockSize), Goal(l, plan.block, Chosen(c, flags)))
  {
    hide HoldsInstructions, D.Bytes, InstructionBytes, Reaches, CanEmit, Shaped, Lowers, Goal, Chosen, Where, Selected;
    var s := plan.order[k];
    RecordOf(bbs, plan, l, news, k);
    SelectsChosen(c, bbs[s].successors, l, news, plan.block, flags);
  }

  /** Every order is safe, and no new block is too large for the displacements of its branches. */
  ghost predicate SafelyArranged(bbs: map<BBId, BasicBlock>, plans: seq<Plan>, f: Graph)
  {
    forall j :: 0 <= j < |plans| ==>
      SafeOrder(bbs, plans[j].order) && plans[j].block in f && |f[plans[j].block].data| < 0x8000_0000
  }

  /** Block `id` of graph `g` was cut, its basic blocks were all arranged by the plans, and the new blocks were
      merged, which made the graph `f`. */
  ghost predicate Rewritten(d: D.Decoder, codeEnd: int, g: Graph, id: BlockId, space: D.Space,
                            bbs: map<BBId, BasicBlock>, descriptions: seq<Description>, plans: seq<Plan>, l: LayoutMap,
                            owners: Owners, f: Graph)
  {
    && id in g && |g[id].data| == g[id].size && D.Decomposed(d, codeEnd, g[id].size, space)
    && SubGraphOf(id, g[id], space, bbs) && OwnersOf(g, id, owners)
    && MergedInto(bbs, descriptions, plans, l, owners, {id}, Strip(g), f) && AllIds(plans) == bbs.Keys
  }

  lemma {:induction false} PlanLands(id: BlockId, b: Block, c: D.Cut, bbs: map<BBId, BasicBlock>, plan: Plan,
                                     l: LayoutMap, news: set<BlockId>, f: Graph, k: nat)
    requires Shaped(bbs, plan, l, news) && Emitted(f, plan, l) && k < |plan.order| && c.CodeCut?
    requires plan.order[k] in bbs && HoldsCut(id, b, plan.order[k], c, bbs[plan.order[k]])
    requires plan.order[k] <= |b.data| && OrderLowered(plan.order, plan.block, l)
    requires forall flags :: HasBranches(plan.order, l, k) ==> RunsTo(f, plan, l, k, flags)
    ensures Landed(id, b, c, l, f, plan.order[k])
  {
    hide HoldsCut, Shaped, D.Bytes, Goal, Reaches, Chosen, CanEmit, At, OrderLowered, RunsTo;
    BodyLands(id, b, c, bbs, plan, l, news, f, k);
    if c.successors != [] {
      forall flags
        ensures Chosen(c, flags).Here? ==> Chosen(c, flags).offset in l
        ensures Reaches(f[plan.block].data, f[plan.block].references, plan.block, flags,
                        In(l[plan.order[k]].startOffset + l[plan.order[k]].basicBlockSize),
                        Goal(l, plan.block, Chosen(c, flags)))
      {
        BranchesLand(id, b, c, bbs, plan, l, news, f, k, flags);
      }
    }
  }

  lemma {:induction false} OrderLands(id: BlockId, b: Block, c: D.Cut, bbs: map<BBId, BasicBlock>,
                                      descriptions: seq<Description>, plans: seq<Plan>, l: LayoutMap, owners: Owners,
                                      f0: Graph, f: Graph, j: nat, k: nat)
    requires MergedInto(bbs, descriptions, plans, l, owners, {id}, f0, f) && j < |plans| && k < |plans[j].order|
    requires SafeOrder(bbs, plans[j].order) && |f[plans[j].block].data| < 0x8000_0000
    requires c.CodeCut? && plans[j].order[k] in bbs && plans[j].order[k] <= |b.data|
    requires HoldsCut(id, b, plans[j].order[k], c, bbs[plans[j].order[k]])
    ensures Landed(id, b, c, l, f, plans[j].order[k])
  {
    assert Settled(bbs, plans[j], l, BlocksOf(plans)) && Emitted(f, plans[j], l);
    hide MergedInto, HoldsCut, Shaped, SafeOrder, LaidOut, SelfConsistent, Landed, ControlFlowPreserved, CanEmit;
    SafeMergePreservesControlFlow(bbs, descriptions, plans, l, owners, {id}, f0, f, j);
    PlanLands(id, b, c, bbs, plans[j], l, BlocksOf(plans), f, k);
  }

  /** Every code cut lands. */
  lemma {:induction false} CutLands(d: D.Decoder, codeEnd: int, g: Graph, id: BlockId, space: D.Space,
                                    bbs: map<BBId, BasicBlock>, descriptions: seq<Description>, plans: seq<Plan>,
                                    l: LayoutMap, owners: Owners,
                                    f: Graph, s: int)
    requires Rewritten(d, codeEnd, g, id, space, bbs, descriptions, plans, l, owners, f)
    requires SafelyArranged(bbs, plans, f)
    requires D.StartsCode(space, s)
    ensures Landed(id, g[id], space[s], l, f, s)
  {
    assert D.InPlace(s, space[s], codeEnd, codeEnd, g[id].size) && s in bbs;
    assert HoldsCut(id, g[id], s, space[s], bbs[s]);
    var j, k := PlanWith(plans, s);
    hide MergedInto, HoldsCut, D.Decomposed, Landed, SafeOrder;
    OrderLands(id, g[id], space[s], bbs, descriptions, plans, l, owners, Strip(g), f, j, k);
  }

  // ----- alignment -----

  /** Data at a multiple of the size of a pointer, in a block that is aligned to that. */
  predicate IsAligned(b: Block, s: int, c: D.Cut)
  {
    c.DataCut? && b.alignment >= POINTER_SIZE && s % POINTER_SIZE == 0
  }

  /** The end of what is in front of the basic block at position `k`. */
  function EndBefore(order: seq<BBId>, l: LayoutMap, k: nat): nat
    requires k < |order| && (k > 0 ==> order[k - 1] in l && |l[order[k - 1]].successors| == 2)
  {
    if k == 0 then 0 else l[order[k - 1]].startOffset + TotalSize(l[order[k - 1]])
  }

  lemma {:induction false} PlacedBehind(order: seq<BBId>, block: BlockId, l: LayoutMap, k: nat)
    requires Valid(order, block, l) && Placed(order, l) && k < |order|
    ensures order[k] in l && (k > 0 ==> order[k - 1] in l && |l[order[k - 1]].successors| == 2)
    ensures l[order[k]].basicBlock.alignment > 0
    ensures l[order[k]].startOffset == AlignUp(EndBefore(order, l, k), l[order[k]].basicBlock.alignment)
  {
    hide AlignUp, TotalSize, ValidSuccessorInfo, Distinct;
    assert order[k] in order && ValidInfo(l[order[k]], l.Keys);
    if k > 0 {
      assert order[k - 1] in order && ValidInfo(l[order[k - 1]], l.Keys);
      StartsBehindEnd(order, block, l, k - 1);
    }
  }

  lemma {:induction false} BlockIsAligned(bbs: map<BBId, BasicBlock>, descriptions: seq<Description>,
                                          plans: seq<Plan>, f: Graph, j: nat, k: nat)
    requires AllAsDescribed(bbs, descriptions, |descriptions|, plans, f) && j < |plans| && k < |plans[j].order|
    ensures plans[j].block in f && plans[j].order[k] in bbs
    ensures bbs[plans[j].order[k]].alignment <= f[plans[j].block].alignment
  {
    hide NonEmpty;
    var d := NonEmpty(descriptions, |descriptions|)[j];
    assert DescribedAt(bbs, d, plans[j], f) && d.order[k] in d.order;
  }

  /** Where a cut is placed: aligned data at a multiple of the size of a pointer, in a block that is aligned to
      that, behind less padding than a pointer takes; all else without padding. */
  lemma {:induction false} CutIsPlaced(d: D.Decoder, codeEnd: int, g: Graph, id: BlockId, space: D.Space,
                                       bbs: map<BBId, BasicBlock>, descriptions: seq<Description>, plans: seq<Plan>,
                                       l: LayoutMap, owners: Owners, f: Graph, s: int, j: nat, k: nat)
    requires Rewritten(d, codeEnd, g, id, space, bbs, descriptions, plans, l, owners, f) && s in space
    requires j < |plans| && k < |plans[j].order| && plans[j].order[k] == s
    ensures s in l && l[s].block == plans[j].block && plans[j].block in f
    ensures k > 0 ==> plans[j].order[k - 1] in l && |l[plans[j].order[k - 1]].successors| == 2
    ensures var end := EndBefore(plans[j].order, l, k);
      if IsAligned(g[id], s, space[s]) then
        && f[l[s].block].alignment >= POINTER_SIZE
        && l[s].startOffset % POINTER_SIZE == 0 && end <= l[s].startOffset < end + POINTER_SIZE
      else l[s].startOffset == end
  {
    assert s in bbs && HoldsCut(id, g[id], s, space[s], bbs[s]);
    assert bbs[s].alignment == AlignmentOf(g[id], s, space[s]);
    assert Settled(bbs, plans[j], l, BlocksOf(plans)) && AllAsDescribed(bbs, descriptions, |descriptions|, plans, f);
    hide MergedInto, HoldsCut, D.Decomposed, Shaped, Valid, Placed, AllAsDescribed, SafeOrder, SubGraphOf, OwnersOf;
    RecordOf(bbs, plans[j], l, BlocksOf(plans), k);
    PlacedBehind(plans[j].order, plans[j].block, l, k);
    BlockIsAligned(bbs, descriptions, plans, f, j, k);
  }

  /** Every data cut lands: jump tables and case tables are there, aligned as they were, and lead to where their
      targets are now. */
  lemma {:induction false} DataLands(d: D.Decoder, codeEnd: int, g: Graph, id: BlockId, space: D.Space,
                                     bbs: map<BBId, BasicBlock>, descriptions: seq<Description>, plans: seq<Plan>,
                                     l: LayoutMap, owners: Owners,
                                     f: Graph, s: int)
    requires Rewritten(d, codeEnd, g, id, space, bbs, descriptions, plans, l, owners, f) && s in space
    requires space[s].DataCut?
    ensures BodyLanded(id, g[id], space[s], l, f, s)
    ensures s % POINTER_SIZE == 0 && g[id].alignment >= POINTER_SIZE ==>
      l[s].startOffset % POINTER_SIZE == 0 && f[l[s].block].alignment >= POINTER_SIZE
  {
    assert D.InPlace(s, space[s], codeEnd, codeEnd, g[id].size) && s in bbs;
    assert HoldsCut(id, g[id], s, space[s], bbs[s]);
    var j, k := PlanWith(plans, s);
    CutIsPlaced(d, codeEnd, g, id, space, bbs, descriptions, plans, l, owners, f, s, j, k);
    assert Settled(bbs, plans[j], l, BlocksOf(plans)) && Emitted(f, plans[j], l);
    hide MergedInto, HoldsCut, D.Decomposed, BodyLanded, SafeOrder, Shaped, LaidOut, CanEmit;
    BodyLands(id, g[id], space[s], bbs, plans[j], l, BlocksOf(plans), f, k);
  }
}
