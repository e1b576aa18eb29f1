/** From the cuts of a block to a subgraph of basic blocks: bytes and references are copied, and successors
    and external referrers are resolved. A basic block is known by the offset at which its cut starts. */
module SubGraphs {
  import opened Types
  import opened BasicBlocks
  import opened Decomposition
  import opened GraphSpecs
  import opened OrderedMaps
  import opened Redirection

  const POINTER_SIZE: nat := 4

  /** A basic block starts at `o`; the one at the end of the block holds nothing. */
  predicate StartsBlock(space: Space, n: int, o: int) { o in space || o == n }

  // ----- references -----

  /** The decomposer can copy the reference: it is long and, if it leads to the block itself, it is direct and
      leads to the start of a basic block. */
  predicate Copyable(space: Space, n: int, id: BlockId, r: Reference)
  {
    r.size == POINTER_SIZE && (r.referenced == id ==> r.offset == r.base && StartsBlock(space, n, r.base))
  }

  /** `c` is the reference of the subgraph that stands for `r`. */
  predicate StandsFor(id: BlockId, r: Reference, c: BasicBlockReference)
  {
    if r.referenced == id then r.base >= 0 && c == ToBasicBlock(r.kind, r.size, r.base)
    else c == ToBlock(r.kind, r.size, r.referenced, r.offset, r.base)
  }

  /** The references of the `size` bytes at `o`, relative to `o`. */
  ghost predicate CopiedReferences(id: BlockId, references: ReferenceMap, o: int, size: nat,
                                   copied: map<int, BasicBlockReference>)
  {
    && (forall k :: k in copied ==> 0 <= k < size && Plus(o, k) in references
                                    && StandsFor(id, references[Plus(o, k)], copied[k]))
    && (forall k :: 0 <= k < size && Plus(o, k) in references ==> k in copied)
  }

  /** All references of the `size` bytes at `o` can be copied. */
  ghost predicate AllCopyable(space: Space, n: int, id: BlockId, references: ReferenceMap, o: int, size: nat)
  {
    forall k :: k in references && o <= k < o + size ==> Copyable(space, n, id, references[k])
  }

  /** The references whose offsets have been seen are copied. */
  ghost predicate CopiedUpTo(space: Space, n: int, id: BlockId, references: ReferenceMap, o: int, size: nat,
                             seen: set<int>, copied: map<int, BasicBlockReference>)
  {
    && (forall k :: k in copied ==> 0 <= k < size && Plus(o, k) in references
                                    && StandsFor(id, references[Plus(o, k)], copied[k]))
    && (forall k :: k in seen && k in references && o <= k < o + size ==>
          Copyable(space, n, id, references[k]) && Plus(-o, k) in copied)
  }

  lemma {:induction false} CopyOne(space: Space, n: int, id: BlockId, references: ReferenceMap, o: int, size: nat,
                                   seen: set<int>, copied: map<int, BasicBlockReference>, k: int,
                                   c: BasicBlockReference)
    requires CopiedUpTo(space, n, id, references, o, size, seen, copied) && k in references
    requires o <= k < o + size && Copyable(space, n, id, references[k]) && StandsFor(id, references[k], c)
    ensures CopiedUpTo(space, n, id, references, o, size, seen + {k}, copied[k - o := c])
  {
    hide Copyable, StandsFor;
    assert Plus(o, k - o) == k && Plus(-o, k) == k - o;
  }

  lemma {:induction false} SkipOne(space: Space, n: int, id: BlockId, references: ReferenceMap, o: int, size: nat,
                                   seen: set<int>, copied: map<int, BasicBlockReference>, k: int)
    requires CopiedUpTo(space, n, id, references, o, size, seen, copied) && !(o <= k < o + size)
    ensures CopiedUpTo(space, n, id, references, o, size, seen + {k}, copied)
  {
    hide Copyable, StandsFor;
  }

  lemma {:induction false} NotCopyable(space: Space, n: int, id: BlockId, references: ReferenceMap, o: int, size: nat,
                                       k: int)
    requires k in references && o <= k < o + size && !Copyable(space, n, id, references[k])
    ensures !AllCopyable(space, n, id, references, o, size)
  {
  }

  lemma {:induction false} AllCopied(space: Space, n: int, id: BlockId, references: ReferenceMap, o: int, size: nat,
                                     copied: map<int, BasicBlockReference>)
    requires CopiedUpTo(space, n, id, references, o, size, references.Keys, copied)
    ensures CopiedReferences(id, references, o, size, copied)
    ensures AllCopyable(space, n, id, references, o, size)
  {
    hide Copyable, StandsFor;
    forall k | 0 <= k < size && Plus(o, k) in references ensures k in copied {
      assert Plus(-o, Plus(o, k)) == k;
    }
  }

  lemma {:induction false} AllSeen(keys: seq<int>, all: set<int>, seen: set<int>)
    requires (forall x :: x in all ==> x in keys) && seen <= all && forall j :: 0 <= j < |keys| ==> keys[j] in seen
    ensures seen == all
  {
    forall x | x in all ensures x in seen {
      var j :| 0 <= j < |keys| && keys[j] == x;
    }
  }

  /** Copies the reference at `k`, if it is in the range. */
  method CopyReference(space: Space, n: nat, id: BlockId, references: ReferenceMap, o: int, size: nat, k: int,
                       copied: map<int, BasicBlockReference>, ghost seen: set<int>)
    returns (ok: bool, more: map<int, BasicBlockReference>)
    requires k in references && CopiedUpTo(space, n, id, references, o, size, seen, copied)
    requires forall s :: s in space ==> s >= 0
    ensures ok <==> (o <= k < o + size ==> Copyable(space, n, id, references[k]))
    ensures ok ==> CopiedUpTo(space, n, id, references, o, size, seen + {k}, more)
  {
    hide CopiedUpTo;
    ok, more := true, copied;
    if o <= k < o + size {
      var r := references[k];
      if !Copyable(space, n, id, r) {
        return false, copied;
      }
      var c := if r.referenced != id then ToBlock(r.kind, r.size, r.referenced, r.offset, r.base)
               else ToBasicBlock(r.kind, r.size, r.base);
      CopyOne(space, n, id, references, o, size, seen, copied, k, c);
      more := copied[k - o := c];
    } else {
      SkipOne(space, n, id, references, o, size, seen, copied, k);
    }
  }

  method CopyReferences(space: Space, n: nat, id: BlockId, references: ReferenceMap, o: int, size: nat)
    returns (ok: bool, copied: map<int, BasicBlockReference>)
    requires forall s :: s in space ==> s >= 0
    ensures ok <==> AllCopyable(space, n, id, references, o, size)
    ensures ok ==> CopiedReferences(id, references, o, size, copied)
  {
    hide Ascending, Ascended, CopiedUpTo, CopiedReferences, AllCopyable, Copyable;
    copied := map[];
    NoneCopied(space, n, id, references, o, size);
    var keys := AscendingKeys(references.Keys);
    ghost var seen := {};
    for i := 0 to |keys|
      invariant seen <= references.Keys && forall j :: 0 <= j < i ==> keys[j] in seen
      invariant CopiedUpTo(space, n, id, references, o, size, seen, copied)
    {
      var k := keys[i];
      assert k in references;
      var more;
      ok, more := CopyReference(space, n, id, references, o, size, k, copied, seen);
      if !ok {
        NotCopyable(space, n, id, references, o, size, k);
        return false, copied;
      }
      copied, seen := more, seen + {k};
    }
    AllSeen(keys, references.Keys, seen);
    AllCopied(space, n, id, references, o, size, copied);
    return true, copied;
  }

  lemma {:induction false} NoneCopied(space: Space, n: int, id: BlockId, references: ReferenceMap, o: int, size: nat)
    ensures CopiedUpTo(space, n, id, references, o, size, {}, map[])
  {
  }

  // ----- successors -----

  /** `t` is the successor of the subgraph that stands for `s`. */
  predicate Resolves(s: Succ, t: Successor)
  {
    && t.condition == s.condition
    && match s.target
       case Here(o) => o >= 0 && t.reference == ToBasicBlock(PC_RELATIVE_REF, POINTER_SIZE, o)
       case There(b, o, kind, size) => t.reference == ToBlock(kind, size, b, o, o)
  }

  ghost predicate ResolvedSuccessors(s: seq<Succ>, t: seq<Successor>)
  {
    |t| == |s| && forall i :: 0 <= i < |s| ==> Resolves(s[i], t[i])
  }

  method ResolveSuccessors(successors: seq<Succ>) returns (resolved: seq<Successor>)
    requires forall i :: 0 <= i < |successors| && successors[i].target.Here? ==> successors[i].target.offset >= 0
    ensures ResolvedSuccessors(successors, resolved)
  {
    resolved := [];
    for i := 0 to |successors|
      invariant |resolved| == i && forall j :: 0 <= j < i ==> Resolves(successors[j], resolved[j])
    {
      var s := successors[i];
      match s.target
      case Here(o) =>
        resolved := resolved + [Successor(s.condition, ToBasicBlock(PC_RELATIVE_REF, POINTER_SIZE, o))];
      case There(b, o, kind, size) =>
        resolved := resolved + [Successor(s.condition, ToBlock(kind, size, b, o, o))];
    }
  }

  // ----- basic blocks -----

  /** The instruction at `o`, byte for byte. */
  ghost predicate HoldsInstruction(id: BlockId, b: Block, o: int, size: nat, i: Instruction)
  {
    && 0 <= o && o + size <= |b.data| && i.data == b.data[o..o + size]
    && CopiedReferences(id, b.references, o, size, i.references)
  }

  ghost predicate HoldsInstructions(id: BlockId, b: Block, start: int, s: seq<Insn>, t: seq<Instruction>)
    requires |t| <= |s|
  {
    forall i :: 0 <= i < |t| ==> HoldsInstruction(id, b, start + Bytes(s[..i]), s[i].size, t[i])
  }

  /** Only data at a multiple of the size of a pointer keeps its alignment, if the block had as much. */
  function AlignmentOf(b: Block, s: int, c: Cut): nat
  {
    if c.DataCut? && b.alignment >= POINTER_SIZE && s % POINTER_SIZE == 0 then POINTER_SIZE else 1
  }

  /** The basic block that stands for a cut. */
  ghost predicate HoldsCut(id: BlockId, b: Block, s: int, c: Cut, bb: BasicBlock)
  {
    && bb.alignment == AlignmentOf(b, s, c)
    && match c
       case CodeCut(_, instructions, successors) =>
         && bb.Code? && |bb.instructions| == |instructions|
         && HoldsInstructions(id, b, s, instructions, bb.instructions)
         && ResolvedSuccessors(successors, bb.successors)
       case DataCut(size) =>
         && bb.Data? && 0 <= s && s + size <= |b.data| && bb.data == b.data[s..s + size]
         && CopiedReferences(id, b.references, s, size, bb.references)
  }

  /** The subgraph that stands for the cuts of a block. */
  ghost predicate SubGraphOf(id: BlockId, b: Block, space: Space, bbs: map<BBId, BasicBlock>)
  {
    && b.size in bbs && bbs[b.size] == End(1)
    && (forall s: BBId :: s in bbs ==> StartsBlock(space, b.size, s))
    && (forall s: BBId :: s in space ==> s in bbs)
    && (forall s: BBId :: s in space && s in bbs ==> HoldsCut(id, b, s, space[s], bbs[s]))
  }

  /** The bytes of a cut without the branch its successors stand for. */
  function BodySize(c: Cut): nat { if c.CodeCut? then Bytes(c.instructions) else c.size }

  /** All references of the cut can be copied; those of the branch its successors stand for do not matter. */
  ghost predicate CutCopyable(space: Space, id: BlockId, b: Block, s: int, c: Cut)
  {
    AllCopyable(space, b.size, id, b.references, s, BodySize(c))
  }

  /** What is known of a cut of a decomposed block. */
  ghost predicate Within(b: Block, s: int, c: Cut)
  {
    && 0 <= s && s + c.size <= |b.data|
    && (c.CodeCut? ==>
          && Bytes(c.instructions) <= c.size
          && forall i :: 0 <= i < |c.successors| && c.successors[i].target.Here? ==> c.successors[i].target.offset >= 0)
  }

  lemma {:induction false} CutIsWithin(d: Decoder, codeEnd: int, b: Block, space: Space, s: int)
    requires Decomposed(d, codeEnd, b.size, space) && |b.data| == b.size && s in space
    ensures Within(b, s, space[s])
  {
    var c := space[s];
    assert InPlace(s, c, codeEnd, codeEnd, b.size) && CutHolds(d, codeEnd, s, c) && TargetsStart(space, c);
    if c.CodeCut? {
      forall i | 0 <= i < |c.successors| && c.successors[i].target.Here? ensures c.successors[i].target.offset >= 0 {
        var o := c.successors[i].target.offset;
        assert StartsCode(space, o) && InPlace(o, space[o], codeEnd, codeEnd, b.size);
      }
    }
  }

  lemma {:induction false} CutsAreWithin(d: Decoder, codeEnd: int, b: Block, space: Space)
    requires Decomposed(d, codeEnd, b.size, space) && |b.data| == b.size
    ensures forall s :: s in space ==> Within(b, s, space[s]) && 0 <= s < b.size
  {
    forall s | s in space ensures Within(b, s, space[s]) && 0 <= s < b.size {
      CutIsWithin(d, codeEnd, b, space, s);
      assert InPlace(s, space[s], codeEnd, codeEnd, b.size);
    }
  }

  lemma {:induction false} NoneCopyable(space: Space, n: int, id: BlockId, references: ReferenceMap, o: int)
    ensures AllCopyable(space, n, id, references, o, 0)
  {
  }

  lemma {:induction false} CopyableInParts(space: Space, n: int, id: BlockId, references: ReferenceMap, o: int,
                                           first: nat, second: nat)
    ensures AllCopyable(space, n, id, references, o, first + second) <==>
      AllCopyable(space, n, id, references, o, first) && AllCopyable(space, n, id, references, o + first, second)
  {
    hide Copyable;
  }

  lemma {:induction false} PartCopyable(space: Space, n: int, id: BlockId, references: ReferenceMap, o: int, size: nat,
                                        from: int, part: nat)
    requires AllCopyable(space, n, id, references, o, size) && o <= from && from + part <= o + size
    ensures AllCopyable(space, n, id, references, from, part)
  {
    hide Copyable;
  }

  lemma {:induction false} HoldsOneMore(id: BlockId, b: Block, start: int, s: seq<Insn>, t: seq<Instruction>,
                                        i: Instruction)
    requires |t| < |s| && HoldsInstructions(id, b, start, s, t)
    requires HoldsInstruction(id, b, start + Bytes(s[..|t|]), s[|t|].size, i)
    ensures HoldsInstructions(id, b, start, s, t + [i])
  {
    hide HoldsInstruction, Bytes;
  }

  method CopyInstruction(space: Space, id: BlockId, b: Block, offset: int, size: nat)
    returns (ok: bool, copy: Instruction)
    requires (forall s :: s in space ==> s >= 0) && 0 <= offset && offset + size <= |b.data|
    ensures ok <==> AllCopyable(space, b.size, id, b.references, offset, size)
    ensures ok ==> HoldsInstruction(id, b, offset, size, copy)
  {
    var references;
    ok, references := CopyReferences(space, b.size, id, b.references, offset, size);
    copy := Instruction(b.data[offset..offset + size], references);
  }

  /** Some instruction has a reference that cannot be copied. */
  lemma {:induction false} NotAllCopyable(space: Space, n: int, id: BlockId, references: ReferenceMap, start: int,
                                          s: seq<Insn>, i: nat)
    requires i < |s| && !AllCopyable(space, n, id, references, start + Bytes(s[..i]), s[i].size)
    ensures !AllCopyable(space, n, id, references, start, Bytes(s))
  {
    hide AllCopyable;
    BytesUpTo(s, i);
    BytesGrow(s, i + 1);
    if AllCopyable(space, n, id, references, start, Bytes(s)) {
      PartCopyable(space, n, id, references, start, Bytes(s), start + Bytes(s[..i]), s[i].size);
    }
  }

  method CopyInstructions(space: Space, id: BlockId, b: Block, start: int, instructions: seq<Insn>)
    returns (ok: bool, copied: seq<Instruction>)
    requires (forall s :: s in space ==> s >= 0) && 0 <= start && start + Bytes(instructions) <= |b.data|
    ensures ok <==> AllCopyable(space, b.size, id, b.references, start, Bytes(instructions))
    ensures ok ==> |copied| == |instructions| && HoldsInstructions(id, b, start, instructions, copied)
  {
    hide AllCopyable, HoldsInstruction;
    copied := [];
    var offset := start;
    NoneCopyable(space, b.size, id, b.references, start);
    assert HoldsInstructions(id, b, start, instructions, copied) && Bytes(instructions[..0]) == 0;
    hide HoldsInstructions, Bytes;
    for i := 0 to |instructions|
      invariant offset == start + Bytes(instructions[..i]) && |copied| == i
      invariant AllCopyable(space, b.size, id, b.references, start, Bytes(instructions[..i]))
      invariant HoldsInstructions(id, b, start, instructions, copied)
    {
      BytesUpTo(instructions, i);
      BytesGrow(instructions, i + 1);
      var found, copy := CopyInstruction(space, id, b, offset, instructions[i].size);
      if !found {
        NotAllCopyable(space, b.size, id, b.references, start, instructions, i);
        return false, copied;
      }
      CopyableInParts(space, b.size, id, b.references, start, Bytes(instructions[..i]), instructions[i].size);
      HoldsOneMore(id, b, start, instructions, copied, copy);
      copied := copied + [copy];
      offset := offset + instructions[i].size;
    }
    assert instructions[..|instructions|] == instructions;
    return true, copied;
  }

  method CopyCut(space: Space, id: BlockId, b: Block, s: int, c: Cut) returns (ok: bool, bb: BasicBlock)
    requires (forall t :: t in space ==> t >= 0) && Within(b, s, c)
    ensures ok <==> CutCopyable(space, id, b, s, c)
    ensures ok ==> HoldsCut(id, b, s, c, bb)
  {
    match c
    case CodeCut(_, insns, succs) =>
      var instructions;
      ok, instructions := CopyInstructions(space, id, b, s, insns);
      var successors := ResolveSuccessors(succs);
      bb := Code(1, instructions, successors);
    case DataCut(size) =>
      var references;
      ok, references := CopyReferences(space, b.size, id, b.references, s, size);
      bb := Data(AlignmentOf(b, s, c), b.data[s..s + size], references);
  }

  /** The cuts that have been seen are copied. */
  ghost predicate BuiltUpTo(space: Space, id: BlockId, b: Block, seen: set<int>, bbs: map<BBId, BasicBlock>)
  {
    && b.size in bbs && bbs[b.size] == End(1)
    && (forall s: BBId :: s in bbs ==> StartsBlock(space, b.size, s))
    && (forall s: BBId :: s in seen && s in space ==> s in bbs && HoldsCut(id, b, s, space[s], bbs[s]))
    && (forall s :: s in seen && s in space ==> CutCopyable(space, id, b, s, space[s]))
  }

  lemma {:induction false} BuildOne(space: Space, id: BlockId, b: Block, seen: set<int>, bbs: map<BBId, BasicBlock>,
                                    s: BBId, bb: BasicBlock)
    requires BuiltUpTo(space, id, b, seen, bbs) && s in space && s < b.size
    requires CutCopyable(space, id, b, s, space[s]) && HoldsCut(id, b, s, space[s], bb)
    ensures BuiltUpTo(space, id, b, seen + {s}, bbs[s := bb])
  {
    hide HoldsCut, CutCopyable;
  }

  lemma {:induction false} AllBuilt(space: Space, id: BlockId, b: Block, bbs: map<BBId, BasicBlock>)
    requires BuiltUpTo(space, id, b, space.Keys, bbs)
    ensures SubGraphOf(id, b, space, bbs)
    ensures forall s :: s in space ==> CutCopyable(space, id, b, s, space[s])
  {
    hide HoldsCut, CutCopyable;
  }

  /** The subgraph of a decomposed block. */
  method BuildSubGraph(space: Space, id: BlockId, b: Block, ghost d: Decoder, ghost codeEnd: int)
    returns (ok: bool, bbs: map<BBId, BasicBlock>)
    requires Decomposed(d, codeEnd, b.size, space) && |b.data| == b.size
    ensures ok <==> forall s :: s in space ==> CutCopyable(space, id, b, s, space[s])
    ensures ok ==> SubGraphOf(id, b, space, bbs)
  {
    hide Ascending, Ascended, HoldsCut, CutCopyable, Decomposed, Within;
    CutsAreWithin(d, codeEnd, b, space);
    bbs := map[b.size := End(1)];
    assert BuiltUpTo(space, id, b, {}, bbs);
    hide BuiltUpTo, SubGraphOf;
    var keys := AscendingKeys(space.Keys);
    ghost var seen := {};
    for i := 0 to |keys|
      invariant seen <= space.Keys && forall j :: 0 <= j < i ==> keys[j] in seen
      invariant BuiltUpTo(space, id, b, seen, bbs)
    {
      var s := keys[i];
      assert s in space;
      var copied, bb := CopyCut(space, id, b, s, space[s]);
      if !copied {
        return false, bbs;
      }
      BuildOne(space, id, b, seen, bbs, s, bb);
      bbs := bbs[s := bb];
      seen := seen + {s};
    }
    AllSeen(keys, space.Keys, seen);
    AllBuilt(space, id, b, bbs);
    return true, bbs;
  }

  // ----- external referrers -----

  /** The base of the reference of a referrer. */
  function BaseOf(g: Graph, r: Referrer): int
    requires r.0 in g && r.1 in g[r.0].references
  {
    g[r.0].references[r.1].base
  }

  /** The basic block that each reference from outside leads to. */
  ghost predicate OwnersOf(g: Graph, id: BlockId, owners: Owners)
    requires id in g
  {
    && (forall r :: r in owners ==> r in g[id].referrers && r.0 != id)
    && (forall r :: r in g[id].referrers && r.0 != id ==> r in owners)
    && (forall r :: r in owners && r.0 in g && r.1 in g[r.0].references ==> owners[r] == BaseOf(g, r))
  }

  method CopyExternalReferrers(g: Graph, id: BlockId, space: Space) returns (ok: bool, owners: Owners)
    requires Mirrored(g) && id in g && forall s :: s in space ==> s >= 0
    ensures ok <==> forall r :: r in g[id].referrers && r.0 != id && r.0 in g && r.1 in g[r.0].references ==>
      StartsBlock(space, g[id].size, BaseOf(g, r))
    ensures ok ==> OwnersOf(g, id, owners) && forall r :: r in owners ==> StartsBlock(space, g[id].size, owners[r])
  {
    owners := map[];
    var todo := g[id].referrers;
    while todo != {}
      invariant todo <= g[id].referrers
      invariant forall r :: r in owners ==> r in g[id].referrers && r.0 != id
      invariant forall r :: r in g[id].referrers && r !in todo && r.0 != id ==> r in owners
      invariant forall r :: r in owners && r.0 in g && r.1 in g[r.0].references ==> owners[r] == BaseOf(g, r)
      invariant forall r :: r in owners ==> StartsBlock(space, g[id].size, owners[r])
      decreases |todo|
    {
      var r := Pick(todo);
      todo := todo - {r};
      if r.0 != id {
        assert (r.0, r.1) in g[id].referrers && Refers(g, r.0, r.1, id);
        var base := BaseOf(g, r);
        if !StartsBlock(space, g[id].size, base) {
          return false, owners;
        }
        owners := owners[r := base];
      }
    }
    return true, owners;
  }
}
