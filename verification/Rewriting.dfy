/** Decomposing a block, arranging its basic blocks anew and merging them back: whatever the arrangement, the
    new blocks run as the old code did. */
module Rewriting {
  import opened Types
  import opened Conditions
  import opened ByteStrings
  import opened BasicBlocks
  import opened Layout
  import opened Emission
  import opened BuilderSpecs
  import opened BuilderPlans
  import opened GraphSpecs
  import opened BlockGraphs
  import opened Redirection
  import opened BlockBuilder
  import opened Merge
  import D = Decomposition
  import opened Decomposer
  import opened SubGraphs
  import opened Determinacy
  import opened Landings

  // ----- what becomes of a step -----

  /** The instruction or branch at `o` belongs to the code cut at `s`. */
  predicate Covers(space: D.Space, s: int, o: int) { D.StartsCode(space, s) && s <= o < s + space[s].size }

  /** Where offset `o` of the cut at `s` is in the new block. */
  function NewOffset(l: LayoutMap, s: int, o: int): nat
    requires s in l && s <= o
  {
    l[s].startOffset + (o - s)
  }

  /** Control in the new blocks is at `e`, seen from `block`, when it is at `c` in the old code. */
  ghost predicate Corresponds(space: D.Space, l: LayoutMap, block: BlockId, c: D.Control, e: Control)
  {
    match c
    case At(o) => exists t :: Covers(space, t, o) && t in l && e == Arrival(l, block, t, o)
    case Leaves(t) => t.There? && e == Gone(Reference(PC_RELATIVE_REF, POINTER_SIZE, t.block, t.offset, t.offset))
    case _ => false
  }

  function Arrival(l: LayoutMap, block: BlockId, t: int, o: int): Control
    requires t in l && t <= o
  {
    if l[t].block == block then In(NewOffset(l, t, o))
    else Gone(Reference(PC_RELATIVE_REF, POINTER_SIZE, l[t].block, NewOffset(l, t, o), NewOffset(l, t, o)))
  }

  /** Running the block from `pc` gets to where the old code gets with `c`. */
  ghost predicate GetsTo(space: D.Space, l: LayoutMap, f: Graph, block: BlockId, flags: Flags, pc: nat, c: D.Control)
    requires block in f
  {
    exists e :: Corresponds(space, l, block, c, e) &&
                Reaches(f[block].data, f[block].references, block, flags, In(pc), e)
  }

  /** The step of the old code at `o` is kept: a branch gets to where it got; any other instruction is there byte
      for byte, with references to where their targets are now, and if it goes on it goes on with what it went on
      with. */
  ghost predicate StepKept(d: D.Decoder, codeEnd: int, id: BlockId, b: Block, space: D.Space, l: LayoutMap, f: Graph,
                           s: int, o: int, flags: Flags)
  {
    && Covers(space, s, o) && s in l && l[s].block in f && o in d && 0 <= o && o + d[o].size <= |b.data|
    && var c := D.LinearStep(d, codeEnd, o, flags);
    if d[o].kind.Branch? then GetsTo(space, l, f, l[s].block, flags, NewOffset(l, s, o), c)
    else
      && At(f[l[s].block].data, NewOffset(l, s, o), b.data[o..o + d[o].size])
      && CarriesReferences(l, id, b.references, o, d[o].size, f[l[s].block].references, NewOffset(l, s, o))
      && (c.At? ==> GetsTo(space, l, f, l[s].block, flags, NewOffset(l, s, o) + d[o].size, c))
  }

  /** Where the targets of cuts are. */
  lemma {:induction false} GoalCorresponds(space: D.Space, l: LayoutMap, block: BlockId, t: D.Target)
    requires t.Here? ==> t.offset in l && D.StartsCode(space, t.offset) && space[t.offset].size > 0
    ensures Corresponds(space, l, block, D.Jump(t), Goal(l, block, t))
  {
    if t.Here? {
      assert Covers(space, t.offset, t.offset);
    }
  }

  /** What follows the instructions of a cut that has landed. */
  lemma {:induction false} LandedGetsTo(d: D.Decoder, codeEnd: int, id: BlockId, b: Block, space: D.Space,
                                        l: LayoutMap, f: Graph, s: int, flags: Flags)
    requires D.Decomposed(d, codeEnd, b.size, space) && s in space && Landed(id, b, space[s], l, f, s)
    requires space[s].successors != []
    ensures GetsTo(space, l, f, l[s].block, flags, l[s].startOffset + D.Bytes(space[s].instructions),
                   D.Jump(Chosen(space[s], flags)))
  {
    hide D.Bytes, At, Reaches, Goal, Corresponds;
    var c := space[s];
    var t := Chosen(c, flags);
    assert D.CutHolds(d, codeEnd, s, c) && D.TargetsStart(space, c);
    D.CutSuccessorsValid(d, codeEnd, s, c);
    if t.Here? {
      assert D.StartsCode(space, t.offset);
      assert D.InPlace(t.offset, space[t.offset], codeEnd, codeEnd, b.size);
    }
    GoalCorresponds(space, l, l[s].block, t);
  }

  lemma {:induction false} PartAt(now: seq<uint8>, pc: nat, data: seq<uint8>, lo: nat, hi: nat, from: nat, to: nat)
    requires lo <= from <= to <= hi <= |data| && At(now, pc, data[lo..hi])
    ensures At(now, pc + (from - lo), data[from..to])
  {
    var part, whole, at := data[from..to], data[lo..hi], pc + (from - lo);
    forall i | 0 <= i < |part| ensures now[at + i] == part[i] {
      assert now[pc..pc + |whole|][from - lo + i] == whole[from - lo + i];
    }
  }

  lemma {:induction false} PartCarries(l: LayoutMap, id: BlockId, references: ReferenceMap, lo: int, size: nat,
                                       now: ReferenceMap, at: int, from: nat, part: nat)
    requires CarriesReferences(l, id, references, lo, size, now, at) && from + part <= size
    ensures CarriesReferences(l, id, references, lo + from, part, now, at + from)
  {
    hide KeepsReference;
    var lo', at' := lo + from, at + from;
    forall k | 0 <= k < part ensures CarriesAt(l, id, references, lo', now, at', k) {
      assert CarriesAt(l, id, references, lo, now, at, from + k);
    }
  }

  /** Staying within the cut. */
  lemma {:induction false} StaysInCut(space: D.Space, l: LayoutMap, f: Graph, s: int, o: int, flags: Flags)
    requires Covers(space, s, o) && s in l && l[s].block in f
    ensures GetsTo(space, l, f, l[s].block, flags, NewOffset(l, s, o), D.At(o))
  {
    var e := In(NewOffset(l, s, o));
    assert Corresponds(space, l, l[s].block, D.At(o), e);
    ReachesSelf(f[l[s].block].data, f[l[s].block].references, l[s].block, flags, e);
  }

  /** Where the next instruction of a cut is. */
  lemma {:induction false} NextInCut(d: D.Decoder, codeEnd: int, start: int, c: D.Cut, i: nat)
    requires D.ValidDecoder(d) && c.CodeCut? && D.CutHolds(d, codeEnd, start, c) && start + c.size <= codeEnd
    requires i < |c.instructions|
    ensures D.RunsInstruction(d, codeEnd, start, c, i)
    ensures D.Bytes(c.instructions[..i]) < D.Bytes(c.instructions[..i + 1]) <= D.Bytes(c.instructions) <= c.size
    ensures var n := D.Bytes(c.instructions[..i + 1]);
      n == c.size && c.instructions[i].kind.Normal? && start + c.size != codeEnd ==>
      n == D.Bytes(c.instructions) && c.successors == D.Fallthrough(start + c.size)
  {
    D.CutInstruction(d, codeEnd, start, c, i);
    D.BytesUpTo(c.instructions, i);
    D.BytesGrow(c.instructions, i + 1);
    if i + 1 < |c.instructions| {
      D.InnerEndsBefore(d, start, c.instructions, i);
    } else {
      assert c.instructions[..i + 1] == c.instructions;
    }
  }

  lemma {:induction false} FallsThrough(c: D.Cut, end: int, flags: Flags)
    requires c.CodeCut? && c.successors == D.Fallthrough(end)
    ensures D.Jump(Chosen(c, flags)) == D.At(end)
  {
  }

  /** A branch goes where the cut that ends with it goes on. */
  lemma {:induction false} BranchGoesOn(d: D.Decoder, codeEnd: int, start: int, c: D.Cut, flags: Flags)
    requires c.CodeCut? && D.RunsBranch(d, start, c)
    ensures c.successors != []
    ensures D.LinearStep(d, codeEnd, start + D.Bytes(c.instructions), flags) == D.Jump(Chosen(c, flags))
  {
    hide D.Bytes;
    var k := d[start + D.Bytes(c.instructions)].kind;
    if IsConditionalBranch(k.condition) {
      InversionNegates(k.condition, flags);
    }
  }

  lemma {:induction false} CutFacts(d: D.Decoder, codeEnd: int, n: int, space: D.Space, s: int)
    requires D.Decomposed(d, codeEnd, n, space) && s in space
    ensures D.ValidDecoder(d) && D.CutHolds(d, codeEnd, s, space[s]) && D.InPlace(s, space[s], codeEnd, codeEnd, n)
    ensures codeEnd <= n
  {
  }

  /** An instruction of a cut that has landed is there. */
  lemma {:induction false} InstructionIsThere(id: BlockId, b: Block, c: D.Cut, l: LayoutMap, f: Graph, s: int, o: int,
                                              size: nat)
    requires Landed(id, b, c, l, f, s) && s <= o && o + size <= s + D.Bytes(c.instructions)
    ensures At(f[l[s].block].data, NewOffset(l, s, o), b.data[o..o + size])
    ensures CarriesReferences(l, id, b.references, o, size, f[l[s].block].references, NewOffset(l, s, o))
  {
    hide D.Bytes, At, CarriesReferences, Chosen, Goal, Reaches;
    var e := s + D.Bytes(c.instructions);
    PartAt(f[l[s].block].data, l[s].startOffset, b.data, s, e, o, o + size);
    PartCarries(l, id, b.references, s, e - s, f[l[s].block].references, l[s].startOffset, o - s, size);
  }

  lemma {:induction false} InstructionKept(d: D.Decoder, codeEnd: int, id: BlockId, b: Block, space: D.Space,
                                           l: LayoutMap, f: Graph, p: D.Position, flags: Flags)
    requires D.Decomposed(d, codeEnd, b.size, space) && |b.data| == b.size && D.ValidPosition(space, p)
    requires p.index < |space[p.start].instructions| && Landed(id, b, space[p.start], l, f, p.start)
    ensures StepKept(d, codeEnd, id, b, space, l, f, p.start, D.OffsetOf(space, p), flags)
  {
    hide D.Decomposed, D.CutHolds, D.Bytes, GetsTo, At, Chosen, CarriesReferences, Landed;
    var s, c, o := p.start, space[p.start], D.OffsetOf(space, p);
    CutFacts(d, codeEnd, b.size, space, s);
    NextInCut(d, codeEnd, s, c, p.index);
    LandedIn(id, b, c, l, f, s);
    var next := o + d[o].size;
    InstructionIsThere(id, b, c, l, f, s, o, d[o].size);
    if d[o].kind.Normal? && next != codeEnd {
      if next < s + c.size {
        StaysInCut(space, l, f, s, next, flags);
      } else {
        LandedGetsTo(d, codeEnd, id, b, space, l, f, s, flags);
        FallsThrough(c, s + c.size, flags);
      }
    }
  }

  lemma {:induction false} LandedIn(id: BlockId, b: Block, c: D.Cut, l: LayoutMap, f: Graph, s: int)
    requires Landed(id, b, c, l, f, s)
    ensures c.CodeCut? && s in l && l[s].block in f && 0 <= s && s + D.Bytes(c.instructions) <= |b.data|
  {
  }

  lemma {:induction false} BranchKept(d: D.Decoder, codeEnd: int, id: BlockId, b: Block, space: D.Space, l: LayoutMap,
                                      f: Graph, p: D.Position, flags: Flags)
    requires D.Decomposed(d, codeEnd, b.size, space) && |b.data| == b.size && D.ValidPosition(space, p)
    requires p.index == |space[p.start].instructions| && space[p.start].successors[0].instructionSize > 0
    requires Landed(id, b, space[p.start], l, f, p.start)
    ensures StepKept(d, codeEnd, id, b, space, l, f, p.start, D.OffsetOf(space, p), flags)
  {
    hide D.Decomposed, D.CutHolds, D.Bytes, GetsTo, At, Chosen;
    var s, c := p.start, space[p.start];
    CutFacts(d, codeEnd, b.size, space, s);
    assert c.instructions[..p.index] == c.instructions;
    D.CutBranch(d, codeEnd, s, c);
    BranchGoesOn(d, codeEnd, s, c, flags);
    LandedGetsTo(d, codeEnd, id, b, space, l, f, s, flags);
  }

  // ----- what becomes of a run -----

  /** The run of the old code from `o` on is kept, step by step. */
  ghost predicate RunKept(d: D.Decoder, codeEnd: int, id: BlockId, b: Block, space: D.Space, l: LayoutMap, f: Graph,
                          o: int, fs: seq<Flags>)
    decreases |fs|
  {
    fs == [] ||
    exists s :: StepKept(d, codeEnd, id, b, space, l, f, s, o, fs[0]) &&
      var c := D.LinearStep(d, codeEnd, o, fs[0]);
      c.At? ==> RunKept(d, codeEnd, id, b, space, l, f, c.offset, fs[1..])
  }

  /** One step from a position in front of an instruction or a branch. */
  lemma {:induction false} StepIsKept(d: D.Decoder, codeEnd: int, id: BlockId, b: Block, space: D.Space, l: LayoutMap,
                                      f: Graph, p: D.Position, flags: Flags)
    requires D.Decomposed(d, codeEnd, b.size, space) && |b.data| == b.size && D.ValidPosition(space, p)
    requires p.index == |space[p.start].instructions| ==> space[p.start].successors[0].instructionSize > 0
    requires Landed(id, b, space[p.start], l, f, p.start)
    ensures StepKept(d, codeEnd, id, b, space, l, f, p.start, D.OffsetOf(space, p), flags)
    ensures D.OffsetOf(space, p) in d
    ensures D.Matches(space, D.GraphStep(space, p, flags), D.LinearStep(d, codeEnd, D.OffsetOf(space, p), flags))
  {
    hide D.Decomposed, Landed, StepKept, D.Matches;
    if p.index < |space[p.start].instructions| {
      InstructionKept(d, codeEnd, id, b, space, l, f, p, flags);
      D.InstructionStep(d, codeEnd, b.size, space, p, flags);
    } else {
      BranchKept(d, codeEnd, id, b, space, l, f, p, flags);
      D.BranchStep(d, codeEnd, b.size, space, p, flags);
    }
  }

  lemma {:induction false} RunIsKept(d: D.Decoder, codeEnd: int, id: BlockId, b: Block, space: D.Space, l: LayoutMap,
                                     f: Graph, p: D.Position, fs: seq<Flags>)
    requires D.Decomposed(d, codeEnd, b.size, space) && |b.data| == b.size && D.ValidPosition(space, p)
    requires forall s :: D.StartsCode(space, s) ==> Landed(id, b, space[s], l, f, s)
    ensures RunKept(d, codeEnd, id, b, space, l, f, D.OffsetOf(space, p), fs)
    decreases |fs|
  {
    hide D.Decomposed, Landed, StepKept;
    if fs != [] {
      D.SettleStays(d, codeEnd, b.size, space, p);
      var q := D.Settle(space, p);
      StepIsKept(d, codeEnd, id, b, space, l, f, q, fs[0]);
      var next := D.GraphStep(space, q, fs[0]);
      if next.To? {
        RunIsKept(d, codeEnd, id, b, space, l, f, next.position, fs[1..]);
      }
    }
  }

  /** Rewriting a block preserves its runs: however the basic blocks are arranged, however the branches are
      decided and however long the run, every step that the old code makes is made by the new blocks. */
  lemma {:induction false} RewritingPreservesRuns(d: D.Decoder, codeEnd: int, g: Graph, id: BlockId, space: D.Space,
                                                  bbs: map<BBId, BasicBlock>, descriptions: seq<Description>,
                                                  plans: seq<Plan>, l: LayoutMap,
                                                  owners: Owners, f: Graph, o: int, fs: seq<Flags>)
    requires Rewritten(d, codeEnd, g, id, space, bbs, descriptions, plans, l, owners, f)
    requires SafelyArranged(bbs, plans, f)
    requires D.StartsCode(space, o)
    ensures RunKept(d, codeEnd, id, g[id], space, l, f, o, fs)
  {
    forall s | D.StartsCode(space, s) ensures Landed(id, g[id], space[s], l, f, s) {
      CutLands(d, codeEnd, g, id, space, bbs, descriptions, plans, l, owners, f, s);
    }
    D.StartIsPosition(d, codeEnd, g[id].size, space, o);
    RunIsKept(d, codeEnd, id, g[id], space, l, f, D.Position(o, 0), fs);
  }

  /** References from outside enter the new blocks where the code that they lead to is now. */
  lemma {:induction false} EntriesKept(d: D.Decoder, codeEnd: int, g: Graph, id: BlockId, space: D.Space,
                                       bbs: map<BBId, BasicBlock>, descriptions: seq<Description>, plans: seq<Plan>,
                                       l: LayoutMap, owners: Owners,
                                       f: Graph, b: BlockId, o: int)
    requires Rewritten(d, codeEnd, g, id, space, bbs, descriptions, plans, l, owners, f) && Mirrored(g) && b != id
    requires Refers(g, b, o, id) && g[b].references[o].base in bbs
    ensures b in f && o in f[b].references && g[b].references[o].base in l
    ensures LeadsToStart(l, g[b].references[o].base, g[b].references[o], f[b].references[o])
  {
    assert (b, o) in g[id].referrers;
    assert (b, o) in owners && owners[(b, o)] == BaseOf(g, (b, o));
    assert b in Strip(g) && Strip(g)[b].references == g[b].references;
    var j, k := PlanWith(plans, g[b].references[o].base);
    assert Settled(bbs, plans[j], l, BlocksOf(plans));
    RecordOf(bbs, plans[j], l, BlocksOf(plans), k);
  }

  /** No order is unsafe if the block is aligned to less than a pointer. */
  lemma {:induction false} UnalignedIsSafe(id: BlockId, b: Block, space: D.Space, bbs: map<BBId, BasicBlock>,
                                           order: seq<BBId>)
    requires SubGraphOf(id, b, space, bbs) && b.alignment < POINTER_SIZE
    requires forall m :: 0 <= m < |order| ==> order[m] in bbs
    ensures SafeOrder(bbs, order)
  {
    forall m | 0 <= m < |order| ensures bbs[order[m]].alignment == 1 {
      if order[m] != b.size {
        assert StartsBlock(space, b.size, order[m]);
        assert HoldsCut(id, b, order[m], space[order[m]], bbs[order[m]]);
      }
    }
  }

  // ----- what the decomposer makes is what the builder demands -----

  /** Branches to other blocks lead to blocks of the graph. */
  ghost predicate TargetsExist(space: D.Space, blocks: set<BlockId>)
  {
    forall s :: D.StartsCode(space, s) ==> CutTargetsExist(space[s], blocks)
  }

  predicate CutTargetsExist(c: D.Cut, blocks: set<BlockId>)
    requires c.CodeCut?
  {
    forall i :: 0 <= i < |c.successors| && c.successors[i].target.There? ==> c.successors[i].target.block in blocks
  }

  lemma {:induction false} CopiedAreSound(g: Graph, id: BlockId, space: D.Space, ids: set<BBId>, o: int, size: nat,
                                          copied: map<int, BasicBlockReference>)
    requires id in g && Closed(g) && CopiedReferences(id, g[id].references, o, size, copied)
    requires AllCopyable(space, g[id].size, id, g[id].references, o, size)
    requires forall s: BBId :: StartsBlock(space, g[id].size, s) ==> s in ids
    ensures ReferencesFit(copied, size, ids, {}) && ReferencesExist(copied, g.Keys - {id})
  {
    forall k | k in copied
      ensures 0 <= k < size && Resolvable(copied[k], ids, {}) && copied[k].size > 0
      ensures copied[k].ToBlock? ==> copied[k].block in g.Keys - {id}
    {
      var r := g[id].references[Plus(o, k)];
      assert StandsFor(id, r, copied[k]) && Copyable(space, g[id].size, id, r);
      assert r.referenced in g;
    }
  }

  lemma {:induction false} InstructionIsSound(g: Graph, id: BlockId, space: D.Space, ids: set<BBId>, s: int, c: D.Cut,
                                              i: nat, instruction: Instruction)
    requires id in g && Closed(g) && c.CodeCut? && CutCopyable(space, id, g[id], s, c) && i < |c.instructions|
    requires HoldsInstruction(id, g[id], s + D.Bytes(c.instructions[..i]), c.instructions[i].size, instruction)
    requires forall t: BBId :: StartsBlock(space, g[id].size, t) ==> t in ids
    ensures ReferencesFit(instruction.references, |instruction.data|, ids, {})
    ensures ReferencesExist(instruction.references, g.Keys - {id})
  {
    hide D.Bytes, CopiedReferences, AllCopyable, ReferencesFit, ReferencesExist;
    var o, size := s + D.Bytes(c.instructions[..i]), c.instructions[i].size;
    D.BytesUpTo(c.instructions, i);
    D.BytesGrow(c.instructions, i + 1);
    PartCopyable(space, g[id].size, id, g[id].references, s, D.Bytes(c.instructions), o, size);
    CopiedAreSound(g, id, space, ids, o, size, instruction.references);
  }

  lemma {:induction false} SuccessorsAreSound(d: D.Decoder, codeEnd: int, space: D.Space, ids: set<BBId>,
                                              blocks: set<BlockId>, s: int, c: D.Cut, succs: seq<Successor>)
    requires c.CodeCut? && D.CutHolds(d, codeEnd, s, c) && D.TargetsStart(space, c) && CutTargetsExist(c, blocks)
    requires ResolvedSuccessors(c.successors, succs) && forall t: BBId :: t in space ==> t in ids
    ensures HasValidSuccessors(succs)
    ensures forall i :: 0 <= i < |succs| ==>
      && Resolvable(succs[i].reference, ids, {})
      && (succs[i].reference.ToBlock? ==> succs[i].reference.block in blocks)
  {
    D.CutSuccessorsValid(d, codeEnd, s, c);
    hide D.CutHolds;
    forall i | 0 <= i < |succs|
      ensures succs[i].condition == c.successors[i].condition && Resolvable(succs[i].reference, ids, {})
      ensures succs[i].reference.ToBlock? ==> succs[i].reference.block in blocks
    {
      assert Resolves(c.successors[i], succs[i]);
      assert c.successors[i].target.Here? ==> D.StartsCode(space, c.successors[i].target.offset);
    }
  }

  /** A basic block of the subgraph is as the builder demands. */
  lemma {:induction false} CutIsSound(d: D.Decoder, codeEnd: int, g: Graph, id: BlockId, space: D.Space, ids: set<BBId>,
                                      s: int, bb: BasicBlock)
    requires id in g && Closed(g) && s in space && HoldsCut(id, g[id], s, space[s], bb)
    requires CutCopyable(space, id, g[id], s, space[s]) && D.CutHolds(d, codeEnd, s, space[s])
    requires D.TargetsStart(space, space[s])
    requires space[s].CodeCut? ==> CutTargetsExist(space[s], g.Keys - {id})
    requires forall t: BBId :: StartsBlock(space, g[id].size, t) ==> t in ids
    ensures WellFormed(bb, ids, {}) && BlockExists(bb, g.Keys - {id})
  {
    hide D.CutHolds, D.TargetsStart, D.Bytes, CopiedReferences, ReferencesFit, ReferencesExist, CutTargetsExist;
    hide HasValidSuccessors, Resolvable, ResolvedSuccessors;
    var c := space[s];
    if c.CodeCut? {
      forall i | 0 <= i < |bb.instructions|
        ensures ReferencesFit(bb.instructions[i].references, |bb.instructions[i].data|, ids, {})
        ensures ReferencesExist(bb.instructions[i].references, g.Keys - {id})
      {
        InstructionIsSound(g, id, space, ids, s, c, i, bb.instructions[i]);
      }
      SuccessorsAreSound(d, codeEnd, space, ids, g.Keys - {id}, s, c, bb.successors);
    } else {
      CopiedAreSound(g, id, space, ids, s, c.size, bb.references);
    }
  }

  /** The descriptions list all basic blocks, each once. */
  ghost predicate Arranges(bbs: map<BBId, BasicBlock>, descriptions: seq<Description>)
  {
    && (forall i :: 0 <= i < |descriptions| ==> Distinct(descriptions[i].order))
    && (forall i, j :: 0 <= i < j < |descriptions| ==> OrdersApart(descriptions[i].order, descriptions[j].order))
    && DescribedIds(descriptions, |descriptions|) == bbs.Keys
  }

  lemma {:induction false} DescribedOrder(descriptions: seq<Description>, n: nat, i: nat)
    requires i < n <= |descriptions|
    ensures forall id :: id in descriptions[i].order ==> id in DescribedIds(descriptions, n)
    decreases n
  {
    if i < n - 1 { DescribedOrder(descriptions, n - 1, i); }
  }

  /** All basic blocks of the subgraph are as the builder demands. */
  lemma {:induction false} BasicBlocksAreSound(d: D.Decoder, codeEnd: int, g: Graph, id: BlockId, space: D.Space,
                                               bbs: map<BBId, BasicBlock>)
    requires id in g && Closed(g) && D.Decomposed(d, codeEnd, g[id].size, space)
    requires SubGraphOf(id, g[id], space, bbs) && TargetsExist(space, g.Keys - {id})
    requires forall s :: s in space ==> CutCopyable(space, id, g[id], s, space[s])
    ensures forall s :: s in bbs ==> WellFormed(bbs[s], bbs.Keys, {}) && BlockExists(bbs[s], g.Keys - {id})
  {
    hide CutCopyable, HoldsCut, WellFormed, BlockExists, D.CutHolds, CutTargetsExist;
    forall s | s in bbs ensures WellFormed(bbs[s], bbs.Keys, {}) && BlockExists(bbs[s], g.Keys - {id}) {
      assert StartsBlock(space, g[id].size, s);
      if s == g[id].size {
        EndIsSound(bbs[s], bbs.Keys, g.Keys - {id});
      } else {
        assert D.TargetsStart(space, space[s]);
        assert space[s].CodeCut? ==> D.StartsCode(space, s);
        CutIsSound(d, codeEnd, g, id, space, bbs.Keys, s, bbs[s]);
      }
    }
  }

  lemma {:induction false} EndIsSound(bb: BasicBlock, ids: set<BBId>, blocks: set<BlockId>)
    requires bb == End(1)
    ensures WellFormed(bb, ids, {}) && BlockExists(bb, blocks)
  {
  }

  /** What the decomposer makes of a block is what the builder demands of a subgraph, however it is arranged. */
  lemma {:induction false} SubGraphIsSound(d: D.Decoder, codeEnd: int, g: Graph, id: BlockId, space: D.Space,
                                           bbs: map<BBId, BasicBlock>, owners: Owners, descriptions: seq<Description>)
    requires id in g && Mirrored(g) && WellSized(g) && D.Decomposed(d, codeEnd, g[id].size, space)
    requires SubGraphOf(id, g[id], space, bbs) && TargetsExist(space, g.Keys - {id})
    requires forall s :: s in space ==> CutCopyable(space, id, g[id], s, space[s])
    requires OwnersOf(g, id, owners) && forall r :: r in owners ==> StartsBlock(space, g[id].size, owners[r])
    requires Arranges(bbs, descriptions)
    ensures Sound(bbs, descriptions, g, owners, {id})
  {
    hide D.Decomposed, CutCopyable, HoldsCut, BlockExists, WellFormed, CanInitialize, OrderSound, ReferrersExist;
    hide OwnersOf, Mirrored, WellSized, TargetsExist;
    MirroredIsClosed(g);
    BasicBlocksAreSound(d, codeEnd, g, id, space, bbs);
    forall i | 0 <= i < |descriptions|
      ensures CanInitialize(bbs, descriptions[i].order)
      ensures OrderSound(bbs, descriptions[i].order, bbs.Keys, g.Keys - {id})
    {
      DescribedOrder(descriptions, |descriptions|, i);
      OrderIsSound(bbs, descriptions[i].order, g.Keys - {id});
    }
    OwnersAreSound(g, id, owners);
  }

  lemma {:induction false} MirroredIsClosed(g: Graph)
    requires Mirrored(g)
    ensures Closed(g)
  {
  }

  lemma {:induction false} OrderIsSound(bbs: map<BBId, BasicBlock>, order: seq<BBId>, blocks: set<BlockId>)
    requires forall s :: s in bbs ==> WellFormed(bbs[s], bbs.Keys, {}) && BlockExists(bbs[s], blocks)
    requires forall s :: s in order ==> s in bbs
    ensures CanInitialize(bbs, order) && OrderSound(bbs, order, bbs.Keys, blocks)
  {
    hide BlockExists;
    assert forall k :: 0 <= k < |order| ==> order[k] in bbs;
  }

  /** The recorded referrers are those that the builder has to redirect. */
  lemma {:induction false} OwnersAreSound(g: Graph, id: BlockId, owners: Owners)
    requires id in g && Mirrored(g) && WellSized(g) && OwnersOf(g, id, owners)
    ensures ReferrersExist(Strip(g), owners) && forall r :: r in owners ==> r.0 != id
    ensures forall b: BlockId, o: int :: RefersInto(g, b, o, {id}) && b !in {id} ==> (b, o) in owners
  {
    forall r | r in owners
      ensures r.0 in g && r.1 in g[r.0].references && g[r.0].references[r.1].size > 0 && r.0 != id
    {
      assert (r.0, r.1) in g[id].referrers && Refers(g, r.0, r.1, id);
    }
    forall b: BlockId, o: int | RefersInto(g, b, o, {id}) && b != id ensures (b, o) in owners {
      assert Refers(g, b, o, id);
      assert (b, o) in g[id].referrers;
    }
  }

  // ----- decompose, arrange, merge -----

  /** The bases of the references to a block. */
  function BasesOf(g: Graph, id: BlockId): set<int>
  {
    set b, o | b in g && o in g[b].references && g[b].references[o].referenced == id :: g[b].references[o].base
  }

  /** The decoder finds no branch to a block that does not exist, and none to the block itself by way of the
      graph. */
  ghost predicate BranchesExist(d: D.Decoder, blocks: set<BlockId>)
  {
    forall o :: o in d && d[o].kind.Branch? && d[o].kind.target.There? ==> d[o].kind.target.block in blocks
  }

  lemma {:induction false} CutsBranchToBlocks(d: D.Decoder, codeEnd: int, n: int, space: D.Space, blocks: set<BlockId>)
    requires D.Decomposed(d, codeEnd, n, space) && BranchesExist(d, blocks)
    ensures TargetsExist(space, blocks)
  {
    forall s | D.StartsCode(space, s) ensures CutTargetsExist(space[s], blocks) {
      assert D.CutHolds(d, codeEnd, s, space[s]);
    }
  }

  /** All references of the block, and all to it, can be turned into references of a subgraph. */
  ghost predicate Rewritable(g: Graph, id: BlockId, space: D.Space)
    requires id in g
  {
    && (forall s :: s in space ==> CutCopyable(space, id, g[id], s, space[s]))
    && (forall r :: r in g[id].referrers && r.0 != id && r.0 in g && r.1 in g[r.0].references ==>
          StartsBlock(space, g[id].size, BaseOf(g, r)))
  }

  /** What the cuts allow is what the references allow. */
  lemma {:induction false} AllowedIsRewritable(g: Graph, id: BlockId, d: D.Decoder, labels: Labels, codeEnd: int,
                                               space: D.Space)
    requires id in g && Mirrored(g) && D.Decomposed(d, codeEnd, g[id].size, space)
    requires forall o :: D.IsBoundary(d, 0, codeEnd, o) <==> D.OnBoundary(space, o)
    requires forall s :: s in space <==> IsStart(d, codeEnd, g[id].size, labels, BasesOf(g, id), s)
    ensures Rewritable(g, id, space) <==> ReferencesAllow(g, id, d, labels, codeEnd)
  {
    hide D.IsBoundary, D.OnBoundary, IsStart, InBranch, CutCopyable, LeadsSomewhere, StartsBlock, CanCopy;
    var bases, n := BasesOf(g, id), g[id].size;
    CutsCanBeCopied(d, codeEnd, id, g[id], labels, bases, space);
    forall r | r in g[id].referrers && r.0 != id && r.0 in g && r.1 in g[r.0].references
      ensures StartsBlock(space, n, BaseOf(g, r)) <==> LeadsSomewhere(labels, codeEnd, n, BaseOf(g, r))
    {
      assert (r.0, r.1) in g[id].referrers && Refers(g, r.0, r.1, id);
      BaseLeadsToStart(d, codeEnd, n, labels, bases, space, BaseOf(g, r));
    }
  }

  /** The block can be decomposed: its code is in front of its data, the code is made of instructions that can
      be represented, and the references allow it. */
  ghost predicate Decomposable(g: Graph, id: BlockId, d: D.Decoder, labels: Labels, codeEnd: int)
    requires id in g
  {
    && CodeFirst(labels, g[id].size) && Parses(d, 0, codeEnd, g[id].size)
    && ReferencesAllow(g, id, d, labels, codeEnd)
  }

  /** No description has a basic block behind the one at the end. */
  ghost predicate EndsAreLast(bbs: map<BBId, BasicBlock>, descriptions: seq<Description>)
  {
    forall i :: 0 <= i < |descriptions| ==>
      CanInitialize(bbs, descriptions[i].order) && EndsLast(bbs, descriptions[i].order, |descriptions[i].order|)
  }

  /** Decomposes a block, arranges its basic blocks as the transform says, and merges them back. */
  method Apply(graph: BlockGraph, id: BlockId, decoder: D.Decoder, labels: Labels,
               transform: map<BBId, BasicBlock> -> seq<Description>)
    returns (ok: bool, ghost codeEnd: int, ghost space: D.Space, ghost bbs: map<BBId, BasicBlock>,
             ghost plans: seq<Plan>, ghost l: LayoutMap, ghost owners: Owners)
    requires graph.Valid() && id in graph.blocks && |graph.blocks[id].data| == graph.blocks[id].size
    requires D.ValidDecoder(decoder) && BranchesExist(decoder, graph.blocks.Keys - {id})
    requires forall k :: k in labels ==> k >= 0
    requires forall end :: IsCodeEnd(labels, graph.blocks[id].size, end)
                           && Parses(decoder, 0, end, graph.blocks[id].size) ==>
      JumpsOnBoundaries(decoder, end, BasesOf(graph.blocks, id))
    requires forall bbs :: Arranges(bbs, transform(bbs))
    modifies graph
    ensures graph.Valid() && (!ok ==> graph.blocks == old(graph.blocks))
    ensures CodeFirst(labels, old(graph.blocks)[id].size) ==> IsCodeEnd(labels, old(graph.blocks)[id].size, codeEnd)
    ensures ok <==>
      && Decomposable(old(graph.blocks), id, decoder, labels, codeEnd) && EndsAreLast(bbs, transform(bbs))
    ensures Decomposable(old(graph.blocks), id, decoder, labels, codeEnd) ==>
      && D.Decomposed(decoder, codeEnd, old(graph.blocks)[id].size, space)
      && SubGraphOf(id, old(graph.blocks)[id], space, bbs)
      && forall s :: s in space <==>
           IsStart(decoder, codeEnd, old(graph.blocks)[id].size, labels, BasesOf(old(graph.blocks), id), s)
    ensures ok ==>
      Rewritten(decoder, codeEnd, old(graph.blocks), id, space, bbs, transform(bbs), plans, l, owners,
                Strip(graph.blocks))
    ensures ok ==> Orders(plans) == NonEmptyOrders(transform(bbs), |transform(bbs)|)
  {
    hide D.Decomposed, SubGraphOf, OwnersOf, MergedInto, CutCopyable, Mirrored, WellSized, EndsLast, CanInitialize;
    hide CodeFirst, Parses, IsCodeEnd, JumpsOnBoundaries, IsStart, ReferencesAllow, D.IsBoundary, D.OnBoundary;
    hide IsDataLabel;
    ghost var g := graph.blocks;
    var b := graph.blocks[id];
    var decomposer := new BasicBlockDecomposer(decoder, b.size, labels, BasesOf(graph.blocks, id));
    var end;
    ok, end := decomposer.Disassemble();
    codeEnd, space, bbs, plans, l, owners := end, decomposer.space, map[], [], map[], map[];
    if !ok {
      return;
    }
    AllowedIsRewritable(g, id, decoder, labels, codeEnd, space);
    var basicBlocks, referrers;
    ok, basicBlocks := BuildSubGraph(decomposer.space, id, b, decoder, end);
    if !ok {
      return;
    }
    SpaceIsPositive(decoder, end, b.size, decomposer.space);
    ok, referrers := CopyExternalReferrers(graph.blocks, id, decomposer.space);
    if !ok {
      return;
    }
    bbs, owners := basicBlocks, referrers;
    var descriptions := transform(basicBlocks);
    CutsBranchToBlocks(decoder, end, b.size, space, g.Keys - {id});
    SubGraphIsSound(decoder, end, g, id, space, bbs, owners, descriptions);
    assert CanDescribe(bbs, descriptions);
    var builder := new Builder(graph);
    var made;
    ok, made, l := builder.Merge(basicBlocks, descriptions, referrers, Some(id));
    plans := made;
    if ok {
      PlanIsDescribed(descriptions, |descriptions|, plans);
    }
  }

  lemma {:induction false} SpaceIsPositive(d: D.Decoder, codeEnd: int, n: int, space: D.Space)
    requires D.Decomposed(d, codeEnd, n, space)
    ensures forall s :: s in space ==> s >= 0
  {
    forall s | s in space ensures s >= 0 { assert D.InPlace(s, space[s], codeEnd, codeEnd, n); }
  }
}
