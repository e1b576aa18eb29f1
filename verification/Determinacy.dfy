/** The code and the labels of a block determine what the decomposer makes of it: there is only one
    decomposition with given cuts, only one subgraph, and the references decide whether there is one at all. */
module Determinacy {
  import opened Types
  import opened BasicBlocks
  import opened Decomposition
  import opened Decomposer
  import opened GraphSpecs
  import opened SubGraphs

  // ----- one decomposition -----

  /** Cuts that start at the same places have the same sizes. */
  lemma {:induction false} SameSize(codeEnd: int, n: int, space: Space, other: Space, s: int)
    requires Tiles(space, codeEnd, codeEnd, n) && Tiles(other, codeEnd, codeEnd, n) && space.Keys == other.Keys
    requires s in space
    ensures other[s].CodeCut? == space[s].CodeCut? && other[s].size == space[s].size
  {
    assert InPlace(s, space[s], codeEnd, codeEnd, n) && InPlace(s, other[s], codeEnd, codeEnd, n);
    assert Continues(space, s, codeEnd, n) && Continues(other, s, codeEnd, n);
  }

  /** Of two lists of instructions from the same offset on, one starts with the other. */
  lemma {:induction false} SameInstructions(d: Decoder, start: int, s: seq<Insn>, t: seq<Insn>, i: nat)
    requires Lists(d, start, s) && Lists(d, start, t) && i <= |s| && i <= |t|
    ensures s[..i] == t[..i]
  {
    if i > 0 {
      SameInstructions(d, start, s, t, i - 1);
      assert ListedAt(d, start, s, i - 1) && ListedAt(d, start, t, i - 1);
      assert s[..i] == s[..i - 1] + [s[i - 1]] && t[..i] == t[..i - 1] + [t[i - 1]];
    }
  }

  /** A cut does not stop in front of an instruction that another of the same size takes in. */
  lemma {:induction false} NoShorter(d: Decoder, codeEnd: int, start: int, c: Cut, e: Cut)
    requires ValidDecoder(d) && c.CodeCut? && e.CodeCut? && c.size == e.size
    requires CutHolds(d, codeEnd, start, c) && CutHolds(d, codeEnd, start, e)
    ensures |c.instructions| >= |e.instructions|
  {
    var i := |c.instructions|;
    if i < |e.instructions| {
      var front := e.instructions[..|e.instructions| - 1];
      assert i < |front| ==> front[i] == e.instructions[i];
      assert ListedAt(d, start, e.instructions, i);
      SameInstructions(d, start, c.instructions, e.instructions, i);
      assert c.instructions[..i] == c.instructions && e.instructions[..i] == c.instructions;
      BytesUpTo(e.instructions, i);
      BytesGrow(e.instructions, i + 1);
    }
  }

  /** A cut is determined by where it starts and ends. */
  lemma {:induction false} CutIsUnique(d: Decoder, codeEnd: int, start: int, c: Cut, e: Cut)
    requires ValidDecoder(d) && c.CodeCut? == e.CodeCut? && c.size == e.size
    requires CutHolds(d, codeEnd, start, c) && CutHolds(d, codeEnd, start, e)
    ensures c == e
  {
    if c.CodeCut? {
      NoShorter(d, codeEnd, start, c, e);
      NoShorter(d, codeEnd, start, e, c);
      var i := |c.instructions|;
      SameInstructions(d, start, c.instructions, e.instructions, i);
      assert c.instructions[..i] == c.instructions && e.instructions[..i] == e.instructions;
    }
  }

  /** There is one decomposition with given starts. */
  lemma {:induction false} DecompositionIsUnique(d: Decoder, codeEnd: int, n: int, space: Space, other: Space)
    requires Decomposed(d, codeEnd, n, space) && Decomposed(d, codeEnd, n, other) && space.Keys == other.Keys
    ensures space == other
  {
    forall s | s in space ensures space[s] == other[s] {
      SameSize(codeEnd, n, space, other, s);
      CutIsUnique(d, codeEnd, s, space[s], other[s]);
    }
  }

  // ----- one subgraph -----

  lemma {:induction false} CopyIsUnique(id: BlockId, references: ReferenceMap, o: int, size: nat,
                                        copied: map<int, BasicBlockReference>, other: map<int, BasicBlockReference>)
    requires CopiedReferences(id, references, o, size, copied) && CopiedReferences(id, references, o, size, other)
    ensures copied == other
  {
    forall k ensures k in copied <==> k in other { assert Plus(o, k) == o + k; }
    forall k | k in copied ensures copied[k] == other[k] {
      assert StandsFor(id, references[Plus(o, k)], copied[k]) && StandsFor(id, references[Plus(o, k)], other[k]);
    }
  }

  lemma {:induction false} InstructionsAreUnique(id: BlockId, b: Block, start: int, s: seq<Insn>,
                                                 t: seq<Instruction>, u: seq<Instruction>)
    requires |t| == |u| == |s| && HoldsInstructions(id, b, start, s, t) && HoldsInstructions(id, b, start, s, u)
    ensures t == u
  {
    forall i | 0 <= i < |s| ensures t[i] == u[i] {
      var o := start + Bytes(s[..i]);
      assert HoldsInstruction(id, b, o, s[i].size, t[i]) && HoldsInstruction(id, b, o, s[i].size, u[i]);
      CopyIsUnique(id, b.references, o, s[i].size, t[i].references, u[i].references);
    }
  }

  lemma {:induction false} SuccessorsAreUnique(s: seq<Succ>, t: seq<Successor>, u: seq<Successor>)
    requires ResolvedSuccessors(s, t) && ResolvedSuccessors(s, u)
    ensures t == u
  {
    forall i | 0 <= i < |s| ensures t[i] == u[i] { assert Resolves(s[i], t[i]) && Resolves(s[i], u[i]); }
  }

  lemma {:induction false} BasicBlockIsUnique(id: BlockId, b: Block, s: int, c: Cut, bb: BasicBlock, other: BasicBlock)
    requires HoldsCut(id, b, s, c, bb) && HoldsCut(id, b, s, c, other)
    ensures bb == other
  {
    hide CopiedReferences, ResolvedSuccessors, HoldsInstructions;
    if c.CodeCut? {
      InstructionsAreUnique(id, b, s, c.instructions, bb.instructions, other.instructions);
      SuccessorsAreUnique(c.successors, bb.successors, other.successors);
    } else {
      CopyIsUnique(id, b.references, s, c.size, bb.references, other.references);
    }
  }

  /** There is one subgraph of a decomposed block. */
  lemma {:induction false} SubGraphIsUnique(id: BlockId, b: Block, space: Space, bbs: map<BBId, BasicBlock>,
                                            other: map<BBId, BasicBlock>)
    requires SubGraphOf(id, b, space, bbs) && SubGraphOf(id, b, space, other)
    ensures bbs == other
  {
    hide HoldsCut;
    forall s: BBId ensures s in bbs <==> s in other {
      assert s in bbs ==> StartsBlock(space, b.size, s);
      assert s in other ==> StartsBlock(space, b.size, s);
    }
    forall s | s in bbs ensures bbs[s] == other[s] {
      assert StartsBlock(space, b.size, s);
      if s in space { BasicBlockIsUnique(id, b, s, space[s], bbs[s], other[s]); }
    }
  }

  // ----- which references can be copied -----

  /** Byte `k` belongs to a branch of the code. */
  ghost predicate InBranch(d: Decoder, codeEnd: int, k: int)
  {
    exists p :: IsBoundary(d, 0, codeEnd, p) && p in d && d[p].kind.Branch? && p <= k < p + d[p].size
  }

  /** A reference to `base` leads to code, to a data label or to the end of the block. */
  predicate LeadsSomewhere(labels: Labels, codeEnd: int, n: int, base: int)
  {
    base < codeEnd || (IsDataLabel(labels, base) && base < n) || base == n
  }

  /** A reference of the block can be copied: it is long and, if it leads to the block itself, it is direct and
      leads somewhere. */
  predicate CanCopy(labels: Labels, codeEnd: int, n: int, id: BlockId, r: Reference)
  {
    r.size == POINTER_SIZE && (r.referenced == id ==> r.offset == r.base && LeadsSomewhere(labels, codeEnd, n, r.base))
  }

  /** All references of the block can be copied, save those of its branches. */
  ghost predicate AllCanCopy(d: Decoder, codeEnd: int, id: BlockId, b: Block, labels: Labels)
  {
    forall k :: k in b.references && 0 <= k < b.size && !InBranch(d, codeEnd, k) ==>
      CanCopy(labels, codeEnd, b.size, id, b.references[k])
  }

  /** The references allow that the block is decomposed: its own can be copied, and those from other blocks lead
      somewhere. */
  ghost predicate ReferencesAllow(g: Graph, id: BlockId, d: Decoder, labels: Labels, codeEnd: int)
    requires id in g
  {
    var n := g[id].size;
    && AllCanCopy(d, codeEnd, id, g[id], labels)
    && (forall r :: r in g[id].referrers && r.0 != id && r.0 in g && r.1 in g[r.0].references ==>
          LeadsSomewhere(labels, codeEnd, n, BaseOf(g, r)))
  }

  /** What a cut copies is what does not belong to a branch. */
  lemma {:induction false} BodyIsCopied(d: Decoder, codeEnd: int, n: int, space: Space, s: int, k: int)
    requires Decomposed(d, codeEnd, n, space) && s in space && s <= k < s + space[s].size
    requires forall o :: IsBoundary(d, 0, codeEnd, o) <==> OnBoundary(space, o)
    ensures k < s + BodySize(space[s]) <==> !InBranch(d, codeEnd, k)
  {
    hide IsBoundary, Bytes, Lists, AllNormal, SuccessorsOf, TargetsStart, Tiles;
    if InBranch(d, codeEnd, k) {
      BranchIsNotCopied(d, codeEnd, n, space, s, k);
    } else {
      assert CutHolds(d, codeEnd, s, space[s]);
      BodyIsWithin(d, codeEnd, n, space, s);
      var c := space[s];
      if c.CodeCut? && Bytes(c.instructions) < c.size {
        var e := s + Bytes(c.instructions);
        assert c.instructions[..|c.instructions|] == c.instructions;
        assert IsAt(space, s, |c.instructions|, e);
        assert OnBoundary(space, e);
      }
    }
  }

  lemma {:induction false} BranchIsNotCopied(d: Decoder, codeEnd: int, n: int, space: Space, s: int, k: int)
    requires Decomposed(d, codeEnd, n, space) && s in space && s <= k < s + space[s].size && InBranch(d, codeEnd, k)
    requires forall o :: IsBoundary(d, 0, codeEnd, o) <==> OnBoundary(space, o)
    ensures k >= s + BodySize(space[s])
  {
    hide IsBoundary, CutHolds, TargetsStart;
    var p :| IsBoundary(d, 0, codeEnd, p) && p in d && d[p].kind.Branch? && p <= k < p + d[p].size;
    assert OnBoundary(space, p);
    var u, j :| IsAt(space, u, j, p);
    assert CutHolds(d, codeEnd, u, space[u]);
    EndsItsCut(d, codeEnd, space, u, j, p);
    assert u == s;
    BranchIsLast(d, codeEnd, space, s, j, p);
  }

  lemma {:induction false} BranchIsLast(d: Decoder, codeEnd: int, space: Space, s: int, j: nat, p: int)
    requires ValidDecoder(d) && IsAt(space, s, j, p) && CutHolds(d, codeEnd, s, space[s])
    requires p in d && d[p].kind.Branch?
    ensures p == s + Bytes(space[s].instructions)
  {
    var instructions := space[s].instructions;
    var front := if instructions == [] then [] else instructions[..|instructions| - 1];
    assert forall i :: 0 <= i < |front| ==> front[i] == instructions[i];
    assert instructions[..|instructions|] == instructions;
    AheadOf(d, codeEnd, space, s, j, p);
  }

  /** A reference to the block leads somewhere if and only if a basic block starts there. */
  lemma {:induction false} BaseLeadsToStart(d: Decoder, codeEnd: int, n: int, labels: Labels, bases: set<int>,
                                         space: Space, base: int)
    requires Tiles(space, codeEnd, codeEnd, n) && base in bases
    requires forall s :: s in space <==> IsStart(d, codeEnd, n, labels, bases, s)
    ensures LeadsSomewhere(labels, codeEnd, n, base) <==> StartsBlock(space, n, base)
  {
    hide EndsAt, BranchedFrom;
    assert base < codeEnd ==> JumpTarget(d, codeEnd, bases, base);
    assert base in space <==> IsStart(d, codeEnd, n, labels, bases, base);
  }

  /** What the decomposer asks of a reference is what can be seen without the cuts. */
  lemma {:induction false} SameCopyable(d: Decoder, codeEnd: int, id: BlockId, b: Block, labels: Labels,
                                        bases: set<int>, space: Space, k: int)
    requires Tiles(space, codeEnd, codeEnd, b.size) && k in b.references
    requires forall s :: s in space <==> IsStart(d, codeEnd, b.size, labels, bases, s)
    requires b.references[k].referenced == id ==> b.references[k].base in bases
    ensures Copyable(space, b.size, id, b.references[k]) <==> CanCopy(labels, codeEnd, b.size, id, b.references[k])
  {
    hide Tiles, IsStart, LeadsSomewhere, StartsBlock;
    if b.references[k].referenced == id {
      BaseLeadsToStart(d, codeEnd, b.size, labels, bases, space, b.references[k].base);
    }
  }

  lemma {:induction false} CutCanBeCopied(d: Decoder, codeEnd: int, id: BlockId, b: Block, labels: Labels,
                                          bases: set<int>, space: Space, s: int)
    requires Decomposed(d, codeEnd, b.size, space) && s in space && AllCanCopy(d, codeEnd, id, b, labels)
    requires forall o :: IsBoundary(d, 0, codeEnd, o) <==> OnBoundary(space, o)
    requires forall t :: t in space <==> IsStart(d, codeEnd, b.size, labels, bases, t)
    requires forall k :: k in b.references && b.references[k].referenced == id ==> b.references[k].base in bases
    ensures CutCopyable(space, id, b, s, space[s])
  {
    hide Tiles, IsBoundary, OnBoundary, IsStart, CutHolds, TargetsStart, InBranch, Copyable, CanCopy, BodySize;
    BodyIsWithin(d, codeEnd, b.size, space, s);
    forall k | k in b.references && s <= k < s + BodySize(space[s])
      ensures Copyable(space, b.size, id, b.references[k])
    {
      BodyIsCopied(d, codeEnd, b.size, space, s, k);
      SameCopyable(d, codeEnd, id, b, labels, bases, space, k);
    }
  }

  lemma {:induction false} CopiedCanBeCopied(d: Decoder, codeEnd: int, id: BlockId, b: Block, labels: Labels,
                                             bases: set<int>, space: Space, k: int)
    requires Decomposed(d, codeEnd, b.size, space) && forall s :: s in space ==> CutCopyable(space, id, b, s, space[s])
    requires forall o :: IsBoundary(d, 0, codeEnd, o) <==> OnBoundary(space, o)
    requires forall s :: s in space <==> IsStart(d, codeEnd, b.size, labels, bases, s)
    requires k in b.references && 0 <= k < b.size && !InBranch(d, codeEnd, k)
    requires b.references[k].referenced == id ==> b.references[k].base in bases
    ensures CanCopy(labels, codeEnd, b.size, id, b.references[k])
  {
    hide Tiles, IsBoundary, OnBoundary, IsStart, CutHolds, TargetsStart, InBranch, Copyable, CanCopy, BodySize;
    CutsPartition(space, codeEnd, b.size, k);
    var s :| s in space && s <= k < s + space[s].size;
    BodyIsCopied(d, codeEnd, b.size, space, s, k);
    assert CutCopyable(space, id, b, s, space[s]);
    SameCopyable(d, codeEnd, id, b, labels, bases, space, k);
  }

  /** Whether the cuts of a decomposed block can be copied is decided by the references of the block. */
  lemma {:induction false} CutsCanBeCopied(d: Decoder, codeEnd: int, id: BlockId, b: Block, labels: Labels,
                                           bases: set<int>, space: Space)
    requires Decomposed(d, codeEnd, b.size, space)
    requires forall o :: IsBoundary(d, 0, codeEnd, o) <==> OnBoundary(space, o)
    requires forall s :: s in space <==> IsStart(d, codeEnd, b.size, labels, bases, s)
    requires forall k :: k in b.references && b.references[k].referenced == id ==> b.references[k].base in bases
    ensures (forall s :: s in space ==> CutCopyable(space, id, b, s, space[s])) <==>
      AllCanCopy(d, codeEnd, id, b, labels)
  {
    hide Decomposed, IsBoundary, OnBoundary, IsStart, InBranch, CutCopyable, CanCopy;
    if AllCanCopy(d, codeEnd, id, b, labels) {
      forall s | s in space ensures CutCopyable(space, id, b, s, space[s]) {
        CutCanBeCopied(d, codeEnd, id, b, labels, bases, space, s);
      }
    } else if forall s :: s in space ==> CutCopyable(space, id, b, s, space[s]) {
      forall k | k in b.references && 0 <= k < b.size && !InBranch(d, codeEnd, k)
        ensures CanCopy(labels, codeEnd, b.size, id, b.references[k])
      {
        CopiedCanBeCopied(d, codeEnd, id, b, labels, bases, space, k);
      }
      assert false;
    }
  }

  lemma {:induction false} BodyIsWithin(d: Decoder, codeEnd: int, n: int, space: Space, s: int)
    requires Decomposed(d, codeEnd, n, space) && s in space
    ensures 0 <= s && BodySize(space[s]) <= space[s].size && s + space[s].size <= n
  {
    assert InPlace(s, space[s], codeEnd, codeEnd, n) && CutHolds(d, codeEnd, s, space[s]);
  }
}
