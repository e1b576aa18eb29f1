/** The block builder: lays out basic blocks in new blocks, writes their bytes and references, and
    redirects what referred to the original block. */
module BlockBuilder {
  import opened Types
  import opened Conditions
  import opened BasicBlocks
  import opened Layout
  import opened LayoutTheorems
  import opened X86
  import opened Emission
  import opened BuilderSpecs
  import opened BuilderPlans
  import opened GraphSpecs
  import opened OrderedMaps
  import opened Merging
  import opened BlockGraphs
  import opened Buffers
  import opened Redirection

  // ----- progress of the layout loops -----

  /** The first `k` basic blocks have got their start offsets. */
  ghost predicate PlacedUpTo(order: seq<BBId>, block: BlockId, l: LayoutMap, now: LayoutMap, k: nat)
    requires Valid(order, block, l) && k <= |order|
  {
    && now.Keys == l.Keys
    && forall id :: id in l ==>
         now[id] == if id in order && IndexOf(order, id) < k then Place(order, block, l)[id] else l[id]
  }

  lemma {:induction false} PlaceOneMore(order: seq<BBId>, block: BlockId, l: LayoutMap, now: LayoutMap, k: nat)
    requires Valid(order, block, l) && k < |order| && PlacedUpTo(order, block, l, now, k)
    ensures order[k] in now && now[order[k]] == l[order[k]]
    ensures PlacedUpTo(order, block, l, now[order[k] := l[order[k]].(startOffset := StartOf(order, l, k))], k + 1)
  {
    IndexOfElement(order, k);
  }

  lemma {:induction false} PlacedAll(order: seq<BBId>, block: BlockId, l: LayoutMap, now: LayoutMap)
    requires Valid(order, block, l) && PlacedUpTo(order, block, l, now, |order|)
    ensures now == Place(order, block, l)
  {
  }

  /** The successors of the first `k` basic blocks have grown to what layout `p` requires. */
  ghost predicate ExpandedUpTo(order: seq<BBId>, block: BlockId, p: LayoutMap, now: LayoutMap, k: nat)
    requires Valid(order, block, p) && k <= |order|
  {
    && now.Keys == p.Keys
    && forall id :: id in p ==>
         now[id] == if id in order && IndexOf(order, id) < k then Expand(order, block, p)[id] else p[id]
  }

  lemma {:induction false} ExpandOneMore(order: seq<BBId>, block: BlockId, p: LayoutMap, now: LayoutMap, k: nat)
    requires Valid(order, block, p) && k < |order| && ExpandedUpTo(order, block, p, now, k)
    ensures order[k] in now && now[order[k]] == p[order[k]]
    ensures ExpandedUpTo(order, block, p, now[order[k] := ExpandInfo(p, p[order[k]])], k + 1)
    ensures SameOffsets(p, now)
  {
    IndexOfElement(order, k);
  }

  lemma {:induction false} ExpandedAll(order: seq<BBId>, block: BlockId, p: LayoutMap, now: LayoutMap)
    requires Valid(order, block, p) && ExpandedUpTo(order, block, p, now, |order|)
    ensures now == Expand(order, block, p)
  {
  }

  lemma {:induction false} ExpandedNone(order: seq<BBId>, block: BlockId, p: LayoutMap)
    requires Valid(order, block, p)
    requires forall j :: 0 <= j < |order| ==> ExpandInfo(p, p[order[j]]) == p[order[j]]
    ensures Expand(order, block, p) == p
  {
    forall id | id in p ensures Expand(order, block, p)[id] == p[id] {
      if id in order { assert order[IndexOf(order, id)] == id; }
    }
  }

  /** The layouts agree in blocks and start offsets, which is all that sizing a successor looks at. */
  predicate SameOffsets(a: LayoutMap, b: LayoutMap)
  {
    a.Keys == b.Keys && forall id :: id in a ==> a[id].block == b[id].block && a[id].startOffset == b[id].startOffset
  }

  lemma {:induction false} SameRequired(a: LayoutMap, b: LayoutMap, info: BasicBlockLayoutInfo)
    requires SameOffsets(a, b) && ValidInfo(info, a.Keys)
    ensures FirstRequired(a, info) == FirstRequired(b, info)
    ensures SecondRequired(a, info) == SecondRequired(b, info)
  {
  }

  /** The largest alignment of a block and its first `k` basic blocks. */
  function MaxAlignment(bbs: map<BBId, BasicBlock>, order: seq<BBId>, alignment: nat, k: nat): nat
    requires k <= |order| && CanInitialize(bbs, order)
  {
    if k == 0 then alignment else Max(MaxAlignment(bbs, order, alignment, k - 1), bbs[order[k - 1]].alignment)
  }

  /** The graph `h` is `g` with another alignment of block `b`. */
  ghost predicate Realigned(g: Graph, h: Graph, b: BlockId, alignment: nat)
  {
    b in g && h == g[b := g[b].(alignment := alignment)]
  }

  lemma {:induction false} NextAlignment(bbs: map<BBId, BasicBlock>, order: seq<BBId>, alignment: nat, k: nat)
    requires k < |order| && CanInitialize(bbs, order)
    ensures MaxAlignment(bbs, order, alignment, k + 1)
      == Max(MaxAlignment(bbs, order, alignment, k), bbs[order[k]].alignment)
  {
  }

  lemma {:induction false} NotRealigned(bbs: map<BBId, BasicBlock>, order: seq<BBId>, g: Graph, b: BlockId)
    requires b in g && CanInitialize(bbs, order)
    ensures Realigned(g, g, b, MaxAlignment(bbs, order, g[b].alignment, 0))
  {
  }

  lemma {:induction false} RealignedHas(g: Graph, h: Graph, b: BlockId, alignment: nat)
    requires Realigned(g, h, b, alignment)
    ensures b in h && h[b].alignment == alignment
  {
  }

  lemma {:induction false} RealignedTwice(g: Graph, h: Graph, k: Graph, b: BlockId, a1: nat, a2: nat)
    requires Realigned(g, h, b, a1) && Realigned(h, k, b, Max(a1, a2))
    ensures Realigned(g, k, b, Max(a1, a2))
  {
  }

  lemma {:induction false} EndIgnoresPlacement(order: seq<BBId>, block: BlockId, l: LayoutMap, p: LayoutMap)
    requires Valid(order, block, l) && p == Place(order, block, l)
    ensures Valid(order, block, p) && EndOf(order, p, |order|) == EndOf(order, l, |order|)
  {
    PlaceValid(order, block, l);
    if order != [] {
      StartIgnoresPlacement(order, block, l, |order| - 1);
    }
  }

  // ----- progress of the emission loops -----

  /** The graph `h` is the stripped graph `f` with these references of block `b`. */
  ghost predicate HasReferences(f: Graph, h: Graph, b: BlockId, refs: ReferenceMap)
  {
    b in f && Strip(h) == WithReferences(f, b, refs)
  }

  lemma {:induction false} HasOwn(g: Graph, b: BlockId)
    requires b in g
    ensures HasReferences(Strip(g), g, b, g[b].references)
  {
    StripAt(g, b);
    ReferencesTwice(Strip(g), b, map[], map[]);
  }

  lemma {:induction false} HasNow(f: Graph, h: Graph, b: BlockId, refs: ReferenceMap)
    requires HasReferences(f, h, b, refs)
    ensures h.Keys == f.Keys && h[b].references == refs
  {
    assert h.Keys == Strip(h).Keys == f.Keys;
    ReferencesNow(f, h, b, refs);
  }

  lemma {:induction false} HasNext(f: Graph, g: Graph, h: Graph, b: BlockId, refs: ReferenceMap, next: ReferenceMap)
    requires HasReferences(f, g, b, refs) && HasReferences(Strip(g), h, b, next)
    ensures HasReferences(f, h, b, next)
  {
    ReferencesNext(f, g, h, b, refs, next);
  }

  /** The references can be set: they lead to blocks of the graph and take up space. */
  predicate Linkable(blocks: set<BlockId>, l: LayoutMap, references: map<int, BasicBlockReference>)
  {
    forall o :: o in references ==>
      && references[o].size > 0
      && (references[o].ToBasicBlock? ==> references[o].bb in l)
      && Resolve(l, references[o]).referenced in blocks
  }

  /** The references `refs` are `before` with those outside `todo` added. */
  ghost predicate AddedSoFar(l: LayoutMap, references: map<int, BasicBlockReference>, todo: set<int>, offset: int,
                             before: ReferenceMap, refs: ReferenceMap)
  {
    && ReferencesResolve(l, references)
    && forall x :: Get(refs, x) ==
         if x - offset in references && x - offset !in todo then Some(Resolve(l, references[x - offset]))
         else Get(before, x)
  }

  lemma {:induction false} AddOneMore(l: LayoutMap, references: map<int, BasicBlockReference>, todo: set<int>,
                                      offset: int, before: ReferenceMap, refs: ReferenceMap, k: int)
    requires AddedSoFar(l, references, todo, offset, before, refs) && k in todo && k in references
    ensures AddedSoFar(l, references, todo - {k}, offset, before, refs[offset + k := Resolve(l, references[k])])
    ensures offset + k in refs <==> offset + k in before
  {
    var after := refs[offset + k := Resolve(l, references[k])];
    forall x
      ensures Get(after, x) ==
        if x - offset in references && x - offset !in todo - {k} then Some(Resolve(l, references[x - offset]))
        else Get(before, x)
    {
      assert Get(refs, x) ==
        if x - offset in references && x - offset !in todo then Some(Resolve(l, references[x - offset]))
        else Get(before, x);
    }
    assert Get(refs, offset + k) == Get(before, offset + k);
  }

  lemma {:induction false} AddedAll(l: LayoutMap, references: map<int, BasicBlockReference>, size: nat, offset: int,
                 before: ReferenceMap, refs: ReferenceMap)
    requires AddedSoFar(l, references, {}, offset, before, refs) && forall o :: o in references ==> 0 <= o < size
    ensures refs == before + ShiftedReferences(l, references, size, offset)
  {
    var all := before + ShiftedReferences(l, references, size, offset);
    forall x ensures Get(refs, x) == Get(all, x) {
      ShiftedReferenceAt(l, references, size, offset, x);
    }
    SameItems(refs, all);
  }

  /** The references of the instructions can be set. */
  predicate InstructionsLink(blocks: set<BlockId>, l: LayoutMap, instructions: seq<Instruction>)
  {
    && InstructionsResolve(l, instructions)
    && forall i :: 0 <= i < |instructions| ==> Linkable(blocks, l, instructions[i].references)
  }

  /** The references of instructions that start at `offset`, added to `refs` one instruction after the other. */
  function ReferencesOnto(l: LayoutMap, rest: seq<Instruction>, offset: int, refs: ReferenceMap): ReferenceMap
    requires InstructionsResolve(l, rest)
    decreases |rest|
  {
    if rest == [] then refs
    else
      assert forall i :: 0 <= i < |rest[1..]| ==> rest[1..][i] == rest[i + 1];
      ReferencesOnto(l, rest[1..], offset + |rest[0].data|,
                     refs + ShiftedReferences(l, rest[0].references, |rest[0].data|, offset))
  }

  lemma {:induction false} AddThree(a: ReferenceMap, b: ReferenceMap, c: ReferenceMap)
    ensures (a + b) + c == a + (b + c)
  {
  }

  lemma {:induction false} ReferencesOntoAdds(l: LayoutMap, rest: seq<Instruction>, offset: int, refs: ReferenceMap)
    requires InstructionsResolve(l, rest)
    ensures ReferencesOnto(l, rest, offset, refs) == refs + InstructionReferences(l, rest, offset)
    decreases |rest|
  {
    if rest != [] {
      assert forall i :: 0 <= i < |rest[1..]| ==> rest[1..][i] == rest[i + 1];
      var shifted := ShiftedReferences(l, rest[0].references, |rest[0].data|, offset);
      ReferencesOntoAdds(l, rest[1..], offset + |rest[0].data|, refs + shifted);
      AddThree(refs, shifted, InstructionReferences(l, rest[1..], offset + |rest[0].data|));
    }
  }

  lemma {:induction false} RestLinks(blocks: set<BlockId>, l: LayoutMap, rest: seq<Instruction>)
    requires rest != [] && InstructionsLink(blocks, l, rest)
    ensures InstructionsLink(blocks, l, rest[1..]) && Linkable(blocks, l, rest[0].references)
    ensures forall o :: o in rest[0].references ==> 0 <= o < |rest[0].data|
  {
    assert forall i :: 0 <= i < |rest[1..]| ==> rest[1..][i] == rest[i + 1];
  }

  lemma {:induction false} KeysTogether(a: ReferenceMap, b: ReferenceMap, mid: nat, hi: nat)
    requires KeysWithin(a, 0, mid) && KeysWithin(b, mid, hi) && mid <= hi
    ensures KeysWithin(a + b, 0, hi)
  {
  }

  lemma {:induction false} NotYetSet(references: map<int, BasicBlockReference>, size: nat, offset: nat,
                                     refs: ReferenceMap)
    requires KeysWithin(refs, 0, offset) && forall o :: o in references ==> 0 <= o < size
    ensures forall o :: o in references ==> offset + o !in refs
  {
  }

  lemma {:induction false} RestBytes(done: seq<uint8>, rest: seq<Instruction>)
    requires rest != []
    ensures done + InstructionBytes(rest) == (done + rest[0].data) + InstructionBytes(rest[1..])
  {
    assert done + (rest[0].data + InstructionBytes(rest[1..])) == (done + rest[0].data) + InstructionBytes(rest[1..]);
  }

  /** Instructions are copied: `done` and `refs` are the bytes and references so far, `rest` are the
      instructions that are left, to be copied to offset `at`; `all` and `whole` are what comes out. */
  ghost predicate Copying(blocks: set<BlockId>, l: LayoutMap, rest: seq<Instruction>, at: nat, done: seq<uint8>,
                          refs: ReferenceMap, all: seq<uint8>, whole: ReferenceMap)
  {
    && InstructionsLink(blocks, l, rest) && KeysWithin(refs, 0, at)
    && at == |done| && all == done + InstructionBytes(rest)
    && whole == ReferencesOnto(l, rest, at, refs)
  }

  lemma {:induction false} CopyNext(blocks: set<BlockId>, l: LayoutMap, rest: seq<Instruction>, at: nat,
                                    done: seq<uint8>, refs: ReferenceMap, all: seq<uint8>, whole: ReferenceMap,
                                    next: ReferenceMap)
    requires rest != [] && Copying(blocks, l, rest, at, done, refs, all, whole)
    requires next == refs + ShiftedReferences(l, rest[0].references, |rest[0].data|, at)
    ensures Copying(blocks, l, rest[1..], at + |rest[0].data|, done + rest[0].data, next, all, whole)
    ensures Linkable(blocks, l, rest[0].references) && at + |rest[0].data| <= |all|
    ensures forall o :: o in rest[0].references ==> 0 <= o < |rest[0].data|
  {
    RestLinks(blocks, l, rest);
    RestBytes(done, rest);
    ShiftedKeys(l, rest[0].references, |rest[0].data|, at);
    KeysTogether(refs, ShiftedReferences(l, rest[0].references, |rest[0].data|, at), at, at + |rest[0].data|);
  }

  /** The branch instruction that the assembler makes for a successor. */
  function SlotInstruction(l: LayoutMap, info: BasicBlockLayoutInfo, i: nat): Instruction
    requires ValidInfo(info, l.Keys) && i < 2 && info.successors[i].Manifested?
  {
    var s := info.successors[i];
    Instruction(SlotBytes(l, info, i),
                map[OpcodeSize(s.condition, IsShort(s)) :=
                      s.reference.(kind := PC_RELATIVE_REF, size := if IsShort(s) then 1 else 4)])
  }

  function SlotInstructions(l: LayoutMap, info: BasicBlockLayoutInfo, i: nat): seq<Instruction>
    requires ValidInfo(info, l.Keys) && i < 2
  {
    if info.successors[i].Manifested? then [SlotInstruction(l, info, i)] else []
  }

  lemma {:induction false} SlotShifted(l: LayoutMap, info: BasicBlockLayoutInfo, i: nat)
    requires CanEmitInfo(l, info) && i < 2 && info.successors[i].Manifested?
    ensures var a := SlotInstruction(l, info, i);
      ShiftedReferences(l, a.references, |a.data|, BranchStart(info, i)) == SlotReferences(l, info, i)
  {
    var a, at := SlotInstruction(l, info, i), BranchStart(info, i);
    var shifted := ShiftedReferences(l, a.references, |a.data|, at);
    SlotLength(l, info, i);
    forall x ensures Get(shifted, x) == Get(SlotReferences(l, info, i), x) {
      ShiftedReferenceAt(l, a.references, |a.data|, at, x);
    }
    SameItems(shifted, SlotReferences(l, info, i));
  }

  predicate InstructionResolves(l: LayoutMap, a: Instruction)
  {
    forall o :: o in a.references ==> 0 <= o < |a.data| && (a.references[o].ToBasicBlock? ==> a.references[o].bb in l)
  }

  lemma {:induction false} ConsInstruction(l: LayoutMap, a: Instruction, rest: seq<Instruction>,
                                           all: seq<Instruction>, offset: int, refs: ReferenceMap, own: ReferenceMap)
    requires InstructionResolves(l, a) && InstructionsResolve(l, rest) && all == [a] + rest
    requires own == ShiftedReferences(l, a.references, |a.data|, offset)
    ensures InstructionsResolve(l, all) && InstructionBytes(all) == a.data + InstructionBytes(rest)
    ensures ReferencesOnto(l, all, offset, refs) == ReferencesOnto(l, rest, offset + |a.data|, refs + own)
  {
    assert all[0] == a && all[1..] == rest;
  }

  /** The instructions of one slot, in front of others. */
  lemma {:induction false} SlotInFront(l: LayoutMap, info: BasicBlockLayoutInfo, i: nat, rest: seq<Instruction>,
                                       refs: ReferenceMap)
    requires CanEmitInfo(l, info) && i < 2 && InstructionsResolve(l, rest)
    ensures var all := SlotInstructions(l, info, i) + rest;
      && InstructionsResolve(l, all) && InstructionBytes(all) == SlotBytes(l, info, i) + InstructionBytes(rest)
      && ReferencesOnto(l, all, BranchStart(info, i), refs) == ReferencesOnto(
           l, rest, BranchStart(info, i) + SizeOf(info.successors[i]), refs + SlotReferences(l, info, i))
  {
    SlotLength(l, info, i);
    if info.successors[i].Manifested? {
      SlotShifted(l, info, i);
      ConsInstruction(l, SlotInstruction(l, info, i), rest, SlotInstructions(l, info, i) + rest, BranchStart(info, i),
                      refs, SlotReferences(l, info, i));
    } else {
      NothingAdded(rest, InstructionBytes(rest), refs);
    }
  }

  lemma {:induction false} NothingAdded(a: seq<Instruction>, data: seq<uint8>, refs: ReferenceMap)
    ensures [] + a == a && [] + data == data && refs + map[] == refs
  {
  }

  /** The bytes and references of the branch instructions are those of the successors. */
  lemma {:induction false} BranchInstructions(l: LayoutMap, info: BasicBlockLayoutInfo, a: seq<Instruction>,
                                              refs: ReferenceMap)
    requires CanEmitInfo(l, info) && a == SlotInstructions(l, info, 0) + SlotInstructions(l, info, 1)
    ensures InstructionsResolve(l, a) && InstructionBytes(a) == SlotBytes(l, info, 0) + SlotBytes(l, info, 1)
    ensures ReferencesOnto(l, a, BranchStart(info, 0), refs)
      == refs + SlotReferences(l, info, 0) + SlotReferences(l, info, 1)
  {
    var second := SlotInstructions(l, info, 1);
    assert second + [] == second;
    SlotInFront(l, info, 1, [], refs + SlotReferences(l, info, 0));
    SlotInFront(l, info, 0, second, refs);
  }

  /** The successors lead to blocks of the graph. */
  predicate SuccessorsLink(blocks: set<BlockId>, l: LayoutMap, info: BasicBlockLayoutInfo)
    requires ValidInfo(info, l.Keys)
  {
    && (info.successors[0].Manifested? ==> Resolve(l, info.successors[0].reference).referenced in blocks)
    && (info.successors[1].Manifested? ==> Resolve(l, info.successors[1].reference).referenced in blocks)
  }

  lemma {:induction false} BranchesLength(l: LayoutMap, info: BasicBlockLayoutInfo)
    requires CanEmitInfo(l, info)
    ensures BranchStart(info, 0) + |SlotBytes(l, info, 0) + SlotBytes(l, info, 1)| == info.startOffset + TotalSize(info)
  {
    SlotLength(l, info, 0);
    SlotLength(l, info, 1);
  }

  lemma {:induction false} BranchesLink(blocks: set<BlockId>, l: LayoutMap, info: BasicBlockLayoutInfo)
    requires CanEmitInfo(l, info) && SuccessorsLink(blocks, l, info)
    ensures InstructionsLink(blocks, l, SlotInstructions(l, info, 0) + SlotInstructions(l, info, 1))
  {
    hide SlotBytes, SlotReferences, InstructionsResolve, InstructionBytes, ReferencesOnto, Emittable;
    BranchInstructions(l, info, SlotInstructions(l, info, 0) + SlotInstructions(l, info, 1), map[]);
  }

  /** The basic block can be emitted into a block of the graph. */
  predicate InfoLinks(blocks: set<BlockId>, l: LayoutMap, info: BasicBlockLayoutInfo)
  {
    && CanEmitInfo(l, info) && info.block in blocks && SuccessorsLink(blocks, l, info)
    && match info.basicBlock
       case Code(_, instructions, _) => InstructionsLink(blocks, l, instructions)
       case Data(_, _, references) => Linkable(blocks, l, references) && info.successors == [Unused, Unused]
       case End(_) => info.successors == [Unused, Unused]
  }

  lemma {:induction false} AddFour(a: ReferenceMap, b: ReferenceMap, c: ReferenceMap, d: ReferenceMap)
    ensures a + b + c + d == a + (b + c + d)
  {
    AddThree(a, b, c);
    AddThree(a, b + c, d);
  }

  lemma {:induction false} JoinBytes(done: seq<uint8>, pad: seq<uint8>, body: seq<uint8>, s0: seq<uint8>,
                                     s1: seq<uint8>)
    ensures ((done + pad) + body) + (s0 + s1) == done + (pad + body + s0 + s1)
  {
  }

  /** The basic blocks of the order can be emitted into blocks of the graph. */
  ghost predicate OrderLinks(blocks: set<BlockId>, order: seq<BBId>, block: BlockId, l: LayoutMap)
  {
    CanEmit(order, block, l) && forall id :: id in order ==> InfoLinks(blocks, l, l[id])
  }

  /** The first `k` basic blocks have been written. */
  ghost predicate Populated(order: seq<BBId>, block: BlockId, l: LayoutMap, k: nat, done: seq<uint8>,
                            refs: ReferenceMap)
    requires CanEmit(order, block, l) && k <= |order|
  {
    && done == SectionBytes(Sections(order, block, l), k) && |done| == EndOf(order, l, k)
    && refs == SectionReferences(Sections(order, block, l), k) && KeysWithin(refs, 0, EndOf(order, l, k))
  }

  lemma {:induction false} PopulateNext(order: seq<BBId>, block: BlockId, l: LayoutMap, k: nat, done: seq<uint8>,
                                        refs: ReferenceMap)
    requires CanEmit(order, block, l) && k < |order| && Populated(order, block, l, k, done, refs)
    ensures CanEmitInfo(l, l[order[k]]) && EndOf(order, l, k) <= l[order[k]].startOffset
    ensures EndOf(order, l, k + 1) == l[order[k]].startOffset + TotalSize(l[order[k]])
    ensures Populated(order, block, l, k + 1, done + InfoBytes(l, l[order[k]], EndOf(order, l, k)),
                      refs + InfoReferences(l, l[order[k]]))
  {
    var info, end := l[order[k]], EndOf(order, l, k);
    StartsBehindEnd(order, block, l, k);
    assert Sections(order, block, l)[k] == InfoSection(l, info, end);
    InfoSectionEnd(l, info, end);
    InfoKeys(l, info);
  }

  /** The next basic block can be written, and what there is then. */
  lemma {:induction false} PopulateStep(blocks: set<BlockId>, order: seq<BBId>, block: BlockId, l: LayoutMap, k: nat,
                                        done: seq<uint8>, refs: ReferenceMap, info: BasicBlockLayoutInfo,
                                        done': seq<uint8>, refs': ReferenceMap)
    requires OrderLinks(blocks, order, block, l) && k < |order| && Populated(order, block, l, k, done, refs)
    requires info == l[order[k]] && EndOf(order, l, k) <= info.startOffset && CanEmitInfo(l, info)
    requires done' == done + InfoBytes(l, info, EndOf(order, l, k)) && refs' == refs + InfoReferences(l, info)
    ensures InfoLinks(blocks, l, info) && info.block == block && KeysWithin(refs, 0, EndOf(order, l, k))
    ensures info.startOffset + TotalSize(info) == EndOf(order, l, k + 1) <= EndOf(order, l, |order|)
    ensures Populated(order, block, l, k + 1, done', refs')
  {
    hide InfoBytes, InfoReferences, CanEmitInfo;
    PopulateNext(order, block, l, k, done, refs);
    EndsGrow(order, block, l, k + 1);
    assert order[k] in order;
  }

  lemma {:induction false} EmittedAndLinked(f: Graph, g: Graph, h: Graph, block: BlockId, data: seq<uint8>,
                                            refs: ReferenceMap, size: nat)
    requires HasReferences(f, g, block, refs) && block in g && g[block].size == size == f[block].size
    requires Strip(h) == Strip(g)[block := Strip(g)[block].(size := size, data := data)]
    ensures Strip(h) == f[block := f[block].(data := data, references := refs)]
  {
  }

  lemma {:induction false} EndsGrow(order: seq<BBId>, block: BlockId, l: LayoutMap, k: nat)
    requires Valid(order, block, l) && Placed(order, l) && k <= |order|
    ensures EndOf(order, l, k) <= EndOf(order, l, |order|)
    decreases |order| - k
  {
    if k < |order| {
      StartsBehindEnd(order, block, l, k);
      EndsGrow(order, block, l, k + 1);
    }
  }

  /** A block that is to be built. */
  datatype Description = Description(name: string, kind: BlockType, alignment: nat, section: int,
                                     attributes: set<Attribute>, order: seq<BBId>)

  /** The descriptions list basic blocks that exist, and no basic block twice. */
  ghost predicate CanDescribe(bbs: map<BBId, BasicBlock>, descriptions: seq<Description>)
  {
    && (forall i :: 0 <= i < |descriptions| ==>
          Distinct(descriptions[i].order) && CanInitialize(bbs, descriptions[i].order))
    && (forall i, j :: 0 <= i < j < |descriptions| ==> OrdersApart(descriptions[i].order, descriptions[j].order))
  }

  function Orders(plans: seq<Plan>): seq<seq<BBId>>
  {
    if plans == [] then [] else Orders(plans[..|plans| - 1]) + [plans[|plans| - 1].order]
  }

  lemma {:induction false} OneMoreOrder(plans: seq<Plan>, plan: Plan)
    ensures Orders(plans + [plan]) == Orders(plans) + [plan.order]
  {
    assert (plans + [plan])[..|plans|] == plans;
  }

  /** The orders of the first `n` descriptions that are not empty. */
  function NonEmptyOrders(descriptions: seq<Description>, n: nat): seq<seq<BBId>>
    requires n <= |descriptions|
  {
    if n == 0 then []
    else if descriptions[n - 1].order == [] then NonEmptyOrders(descriptions, n - 1)
    else NonEmptyOrders(descriptions, n - 1) + [descriptions[n - 1].order]
  }

  /** The first `n` descriptions without those whose order is empty. */
  function NonEmpty(descriptions: seq<Description>, n: nat): (r: seq<Description>)
    requires n <= |descriptions|
    ensures forall d :: d in r <==> d in descriptions[..n] && d.order != []
  {
    if n == 0 then []
    else
      assert descriptions[..n] == descriptions[..n - 1] + [descriptions[n - 1]];
      if descriptions[n - 1].order == [] then NonEmpty(descriptions, n - 1)
      else NonEmpty(descriptions, n - 1) + [descriptions[n - 1]]
  }

  /** The alignment is the largest of the description's and those of its basic blocks. */
  ghost predicate LargestAlignment(bbs: map<BBId, BasicBlock>, d: Description, alignment: nat)
  {
    && d.alignment <= alignment
    && (forall id :: id in d.order ==> id in bbs && bbs[id].alignment <= alignment)
    && (alignment == d.alignment || exists id :: id in d.order && id in bbs && bbs[id].alignment == alignment)
  }

  /** The block is as the description says, and has data for all of its bytes. */
  ghost predicate AsDescribed(bbs: map<BBId, BasicBlock>, d: Description, b: Block)
  {
    && b.kind == d.kind && b.section == d.section && b.attributes == d.attributes && b.name == d.name
    && LargestAlignment(bbs, d, b.alignment) && b.size == |b.data|
  }

  /** Each description that is not empty has a plan, with a block that is as described. */
  ghost predicate AllAsDescribed(bbs: map<BBId, BasicBlock>, descriptions: seq<Description>, n: nat, plans: seq<Plan>,
                                 g: Graph)
    requires n <= |descriptions|
  {
    && |plans| == |NonEmpty(descriptions, n)|
    && forall j :: 0 <= j < |plans| ==> DescribedAt(bbs, NonEmpty(descriptions, n)[j], plans[j], g)
  }

  ghost predicate DescribedAt(bbs: map<BBId, BasicBlock>, d: Description, plan: Plan, g: Graph)
  {
    plan.order == d.order && plan.block in g && AsDescribed(bbs, d, g[plan.block])
  }

  /** The blocks differ in their contents only. */
  predicate SameHeader(a: Block, b: Block)
  {
    b == a.(size := b.size, data := b.data, references := b.references, referrers := b.referrers)
  }

  ghost predicate SameHeaders(g: Graph, h: Graph) { forall b :: b in g ==> b in h && SameHeader(g[b], h[b]) }

  lemma {:induction false} MaxIsLargest(bbs: map<BBId, BasicBlock>, order: seq<BBId>, alignment: nat, k: nat)
    requires k <= |order| && CanInitialize(bbs, order)
    ensures alignment <= MaxAlignment(bbs, order, alignment, k)
    ensures forall j :: 0 <= j < k ==> bbs[order[j]].alignment <= MaxAlignment(bbs, order, alignment, k)
    ensures MaxAlignment(bbs, order, alignment, k) == alignment ||
      exists j :: 0 <= j < k && bbs[order[j]].alignment == MaxAlignment(bbs, order, alignment, k)
  {
    if k > 0 {
      MaxIsLargest(bbs, order, alignment, k - 1);
      var m := MaxAlignment(bbs, order, alignment, k - 1);
      if m < bbs[order[k - 1]].alignment {
        assert MaxAlignment(bbs, order, alignment, k) == bbs[order[k - 1]].alignment;
      } else if m != alignment {
        var j :| 0 <= j < k - 1 && bbs[order[j]].alignment == m;
        assert bbs[order[j]].alignment == MaxAlignment(bbs, order, alignment, k);
      }
    }
  }

  lemma {:induction false} MaxIsDescribed(bbs: map<BBId, BasicBlock>, d: Description)
    requires CanInitialize(bbs, d.order)
    ensures LargestAlignment(bbs, d, MaxAlignment(bbs, d.order, d.alignment, |d.order|))
  {
    var m := MaxAlignment(bbs, d.order, d.alignment, |d.order|);
    MaxIsLargest(bbs, d.order, d.alignment, |d.order|);
    forall id | id in d.order ensures id in bbs && bbs[id].alignment <= m {
      assert d.order[IndexOf(d.order, id)] == id;
    }
    if m != d.alignment {
      var j :| 0 <= j < |d.order| && bbs[d.order[j]].alignment == m;
      assert d.order[j] in d.order;
    }
  }

  /** One more plan. */
  lemma {:induction false} DescribesNext(bbs: map<BBId, BasicBlock>, descriptions: seq<Description>, i: nat,
                                         plans: seq<Plan>, g: Graph, plan: Plan, h: Graph)
    requires i < |descriptions| && descriptions[i].order != [] && AllAsDescribed(bbs, descriptions, i, plans, g)
    requires (forall b :: b in g ==> b in h && h[b] == g[b]) && DescribedAt(bbs, descriptions[i], plan, h)
    ensures AllAsDescribed(bbs, descriptions, i + 1, plans + [plan], h)
  {
    hide AsDescribed;
    forall j | 0 <= j < |plans| ensures DescribedAt(bbs, NonEmpty(descriptions, i)[j], plans[j], h) {
      assert DescribedAt(bbs, NonEmpty(descriptions, i)[j], plans[j], g);
    }
  }

  /** Blocks stay as described when their contents change. */
  lemma {:induction false} StaysDescribed(bbs: map<BBId, BasicBlock>, descriptions: seq<Description>, n: nat,
                                          plans: seq<Plan>, g: Graph, h: Graph)
    requires n <= |descriptions| && AllAsDescribed(bbs, descriptions, n, plans, g) && SameHeaders(g, h)
    requires forall j :: 0 <= j < |plans| && plans[j].block in h ==>
      h[plans[j].block].size == |h[plans[j].block].data|
    ensures AllAsDescribed(bbs, descriptions, n, plans, h)
  {
    hide NonEmpty, LargestAlignment;
    forall j | 0 <= j < |plans| ensures DescribedAt(bbs, NonEmpty(descriptions, n)[j], plans[j], h) {
      assert DescribedAt(bbs, NonEmpty(descriptions, n)[j], plans[j], g);
      assert SameHeader(g[plans[j].block], h[plans[j].block]);
    }
  }

  lemma {:induction false} PlannedIds(descriptions: seq<Description>, n: nat, plans: seq<Plan>, i: nat)
    requires n <= i < |descriptions| && Orders(plans) == NonEmptyOrders(descriptions, n)
    requires forall j :: 0 <= j < i ==> OrdersApart(descriptions[j].order, descriptions[i].order)
    ensures forall id :: id in AllIds(plans) ==> id !in descriptions[i].order
    decreases n
  {
    if n > 0 {
      if descriptions[n - 1].order == [] {
        PlannedIds(descriptions, n - 1, plans, i);
      } else {
        var last := |plans| - 1;
        assert Orders(plans) == Orders(plans[..last]) + [plans[last].order];
        assert Orders(plans)[..|Orders(plans)| - 1] == Orders(plans[..last]);
        PlannedIds(descriptions, n - 1, plans[..last], i);
      }
    }
  }

  lemma {:induction false} NotYetPlanned(descriptions: seq<Description>, i: nat, plans: seq<Plan>)
    requires i < |descriptions| && Orders(plans) == NonEmptyOrders(descriptions, i)
    requires forall j, k :: 0 <= j < k < |descriptions| ==> OrdersApart(descriptions[j].order, descriptions[k].order)
    ensures forall id :: id in AllIds(plans) ==> id !in descriptions[i].order
  {
    PlannedIds(descriptions, i, plans, i);
  }

  /** The blocks of the first `i` plans have the sizes of their layouts. */
  ghost predicate AllSized(g: Graph, plans: seq<Plan>, l: LayoutMap, i: nat)
    requires i <= |plans|
  {
    forall j :: 0 <= j < i ==> Sized(g, plans[j], l)
  }

  lemma {:induction false} SizedNext(bbs: map<BBId, BasicBlock>, g: Graph, h: Graph, plans: seq<Plan>, l: LayoutMap,
                                     r: LayoutMap, news: set<BlockId>, i: nat)
    requires i < |plans| && AllSized(g, plans, l, i) && LaidOutUpTo(bbs, plans, r, news, i + 1)
    requires forall j :: 0 <= j < |plans| && j != i ==> SameOrder(plans[j].order, l, r)
    requires h.Keys == g.Keys && (forall b :: b in g && b != plans[i].block ==> h[b] == g[b]) && Sized(h, plans[i], r)
    ensures AllSized(h, plans, r, i + 1)
  {
    forall j | 0 <= j < i ensures Sized(h, plans[j], r) {
      ApartEitherWay(plans, j, i);
      assert Ready(bbs, plans[j], r, news, true);
      StaysSized(g, h, plans[j], l, r);
    }
  }

  lemma {:induction false} LaidOutInNews(bbs: map<BBId, BasicBlock>, plans: seq<Plan>, l: LayoutMap, news: set<BlockId>)
    requires forall j :: 0 <= j < |plans| ==> Settled(bbs, plans[j], l, news)
    ensures forall id :: id in AllIds(plans) ==> id in l && l[id].block in news
  {
    if plans != [] {
      LaidOutInNews(bbs, plans[..|plans| - 1], l, news);
    }
  }

  lemma {:induction false} InfoExists(bbs: map<BBId, BasicBlock>, plan: Plan, l: LayoutMap, news: set<BlockId>,
                                      blocks: set<BlockId>, k: nat)
    requires k < |plan.order| && ShapedAt(bbs, plan, l, news, k) && CanEmitInfo(l, l[plan.order[k]])
    requires BlockExists(bbs[plan.order[k]], blocks) && plan.block in blocks
    requires forall id :: id in l ==> l[id].block in blocks
    ensures InfoLinks(blocks, l, l[plan.order[k]])
  {
    var info := l[plan.order[k]];
    if info.basicBlock.Code? {
      var succs := info.basicBlock.successors;
      assert SameSlot(InitialSlots(succs, Next(plan.order, k))[0], info.successors[0]);
      assert SameSlot(InitialSlots(succs, Next(plan.order, k))[1], info.successors[1]);
    } else {
      assert info.successors == [info.successors[0], info.successors[1]];
    }
  }

  lemma {:induction false} OrderExists(bbs: map<BBId, BasicBlock>, plan: Plan, l: LayoutMap, news: set<BlockId>,
                                       blocks: set<BlockId>)
    requires Settled(bbs, plan, l, news) && AllExist(bbs, plan.order, blocks) && plan.block in blocks
    requires forall id :: id in l ==> l[id].block in blocks
    ensures OrderLinks(blocks, plan.order, plan.block, l)
  {
    LaidOutCanEmit(bbs, plan, l, news);
    forall id | id in plan.order ensures InfoLinks(blocks, l, l[id]) {
      var k := IndexOf(plan.order, id);
      assert ShapedAt(bbs, plan, l, news, k);
      InfoExists(bbs, plan, l, news, blocks, k);
    }
  }

  /** The new block has the bytes and references of its layout. */
  ghost predicate Emitted(f: Graph, plan: Plan, l: LayoutMap)
  {
    && CanEmit(plan.order, plan.block, l) && plan.block in f
    && f[plan.block].data == BlockImage(plan.order, plan.block, l)
    && f[plan.block].references == ImageReferences(plan.order, plan.block, l)
  }

  /** The blocks of the first `i` plans have been populated; nothing else has changed since `f0`. */
  ghost predicate PopulatedUpTo(f0: Graph, f: Graph, plans: seq<Plan>, l: LayoutMap, i: nat)
    requires i <= |plans|
  {
    && f.Keys == f0.Keys
    && (forall j :: 0 <= j < i ==> Emitted(f, plans[j], l))
    && (forall j :: i <= j < |plans| && plans[j].block in f0 ==> f[plans[j].block] == f0[plans[j].block])
    && (forall b :: b in f0 && b !in BlocksOf(plans) ==> f[b] == f0[b])
    && (forall b :: b in f0 ==> f[b] == f0[b].(data := f[b].data, references := f[b].references))
  }

  /** The new block is ready to be populated. */
  ghost predicate Fillable(f: Graph, plan: Plan, l: LayoutMap)
  {
    && plan.block in f && f[plan.block].references == map[]
    && OrderLinks(f.Keys, plan.order, plan.block, l)
    && |f[plan.block].data| == EndOf(plan.order, l, |plan.order|)
  }

  lemma {:induction false} StillFillable(f0: Graph, f: Graph, g: Graph, plan: Plan, l: LayoutMap)
    requires Fillable(f0, plan, l) && f == Strip(g) && f.Keys == f0.Keys && f[plan.block] == f0[plan.block]
    ensures plan.block in g && g[plan.block].references == map[] && g.Keys == f0.Keys
    ensures |g[plan.block].data| == EndOf(plan.order, l, |plan.order|)
  {
    StripAt(g, plan.block);
  }

  lemma {:induction false} PopulatesNext(f0: Graph, f: Graph, f': Graph, plans: seq<Plan>, l: LayoutMap, i: nat)
    requires i < |plans| && PlansApart(plans) && PopulatedUpTo(f0, f, plans, l, i)
    requires f'.Keys == f.Keys && (forall b :: b in f && b != plans[i].block ==> f'[b] == f[b])
    requires Emitted(f', plans[i], l) && plans[i].block in f
    requires var b := plans[i].block; f'[b] == f[b].(data := f'[b].data, references := f'[b].references)
    ensures PopulatedUpTo(f0, f', plans, l, i + 1)
  {
    BlockIsOneOf(plans, i);
    forall j | 0 <= j < |plans| && j != i ensures plans[j].block != plans[i].block { ApartEitherWay(plans, j, i); }
  }

  /** Without its own references, a block that nothing else refers to is disconnected. */
  lemma {:induction false} OriginalDisconnected(g: Graph, h: Graph, original: BlockId)
    requires Mirrored(h) && original in g && Strip(h) == WithReferences(Strip(g), original, map[])
    requires forall b: BlockId, o: int :: Refers(g, b, o, original) ==> b == original
    ensures original in h && h[original].references == map[] && h[original].referrers == {}
    ensures Strip(h) - {original} == Strip(g) - {original}
  {
    assert h.Keys == Strip(h).Keys == g.Keys;
    forall c, o | c in Strip(h) && o in Strip(h)[c].references
      ensures Strip(h)[c].references[o].referenced != original
    {
      StripAt(h, c);
      StripAt(g, c);
      assert c != original ==> !Refers(g, c, o, original);
    }
    StripAt(h, original);
    Disconnected(h, original);
  }

  /** The blocks that a merge removes. */
  function Replaced(original: Option<BlockId>): set<BlockId> { if original.Some? then {original.value} else {} }

  predicate RefersInto(g: Graph, b: BlockId, o: int, blocks: set<BlockId>)
  {
    b in g && o in g[b].references && g[b].references[o].referenced in blocks
  }

  class MergeContext {
    const graph: BlockGraph
    const basicBlocks: map<BBId, BasicBlock>
    var layoutInfo: LayoutMap

    constructor (graph: BlockGraph, basicBlocks: map<BBId, BasicBlock>)
      ensures this.graph == graph && this.basicBlocks == basicBlocks && layoutInfo == map[]
    {
      this.graph := graph;
      this.basicBlocks := basicBlocks;
      layoutInfo := map[];
    }

    /** Decides how the successors of a code block are represented. */
    method InitializeSuccessors(successors: seq<Successor>, next: Option<BBId>)
      returns (slots: seq<SuccessorLayoutInfo>)
      requires |successors| <= 2
      ensures slots == InitialSlots(successors, next)
    {
      slots := [Unused, Unused];
      var manifested := 0;
      var elided := 0;
      if 0 < |successors| {
        if !LeadsToNext(successors[0], next) {
          var first := successors[0];
          slots := slots[manifested + elided := Manifested(first.condition, first.reference, 0, first)];
          manifested := manifested + 1;
        } else {
          slots := slots[manifested + elided := Elided(successors[0])];
          elided := elided + 1;
        }
      }
      if 1 < |successors| {
        if !LeadsToNext(successors[1], next) {
          // After a branch on the complementary condition, an unconditional jump will do.
          var condition := if manifested != 0 then CONDITION_TRUE else successors[1].condition;
          slots := slots[manifested + elided := Manifested(condition, successors[1].reference, 0, successors[1])];
        } else {
          slots := slots[manifested + elided := Elided(successors[1])];
        }
      }
    }

    /** Makes the layout records of an order; the new block gets the largest alignment of its basic blocks. */
    method InitializeBlockLayout(order: seq<BBId>, newBlock: BlockId)
      requires graph.Valid() && newBlock in graph.blocks && Distinct(order) && CanInitialize(basicBlocks, order)
      requires forall id :: id in order ==> id !in layoutInfo
      modifies this, graph
      ensures graph.Valid() && graph.nextBlockId == old(graph.nextBlockId)
      ensures InitializedUpTo(basicBlocks, order, newBlock, old(layoutInfo), layoutInfo, |order|)
      ensures Realigned(old(graph.blocks), graph.blocks, newBlock,
                        MaxAlignment(basicBlocks, order, old(graph.blocks)[newBlock].alignment, |order|))
    {
      hide InitialInfo, Mirrored, WellSized, InitializedUpTo, Distinct, Realigned, MaxAlignment;
      ghost var l, g := layoutInfo, graph.blocks;
      ghost var alignment := g[newBlock].alignment;
      NoneInitialized(basicBlocks, order, newBlock, l);
      NotRealigned(basicBlocks, order, g, newBlock);
      for k := 0 to |order|
        invariant graph.Valid() && graph.nextBlockId == old(graph.nextBlockId)
        invariant InitializedUpTo(basicBlocks, order, newBlock, l, layoutInfo, k)
        invariant Realigned(g, graph.blocks, newBlock, MaxAlignment(basicBlocks, order, alignment, k))
      {
        var bb := basicBlocks[order[k]];
        ghost var h := graph.blocks;
        RealignedHas(g, h, newBlock, MaxAlignment(basicBlocks, order, alignment, k));
        RaiseAlignment(newBlock, bb.alignment);
        RealignedTwice(g, h, graph.blocks, newBlock, MaxAlignment(basicBlocks, order, alignment, k), bb.alignment);
        NextAlignment(basicBlocks, order, alignment, k);
        var info := InitializeInfo(bb, newBlock, Next(order, k));
        InitializeOneMore(basicBlocks, order, newBlock, l, layoutInfo, k);
        layoutInfo := layoutInfo[order[k] := info];
      }
    }

    /** Propagates the alignment of a basic block to the new block. */
    method RaiseAlignment(newBlock: BlockId, alignment: nat)
      requires graph.Valid() && newBlock in graph.blocks
      modifies graph
      ensures graph.Valid() && graph.nextBlockId == old(graph.nextBlockId)
      ensures Realigned(old(graph.blocks), graph.blocks, newBlock,
                        Max(old(graph.blocks)[newBlock].alignment, alignment))
    {
      if alignment > graph.blocks[newBlock].alignment {
        ghost var before := graph.blocks;
        graph.blocks := graph.blocks[newBlock := graph.blocks[newBlock].(alignment := alignment)];
        SameLinks(before, graph.blocks);
      }
    }

    method InitializeInfo(bb: BasicBlock, newBlock: BlockId, next: Option<BBId>) returns (info: BasicBlockLayoutInfo)
      requires bb.Code? ==> |bb.successors| <= 2
      ensures info == InitialInfo(bb, newBlock, next)
    {
      var slots := [Unused, Unused];
      if bb.Code? {
        slots := InitializeSuccessors(bb.successors, next);
      }
      info := BasicBlockLayoutInfo(bb, newBlock, 0, BasicBlockSize(bb), slots);
    }

    /** The size a successor needs at `startOffset` of block `block`. */
    method ComputeRequiredSuccessorSize(block: BlockId, startOffset: nat, s: SuccessorLayoutInfo) returns (size: nat)
      requires s.Manifested? && (s.reference.ToBasicBlock? ==> s.reference.bb in layoutInfo)
      ensures size == RequiredSuccessorSize(layoutInfo, block, startOffset, s)
    {
      match s.reference
      case ToBlock(_, _, _, _, _) =>
        return LongSuccessorSize(s.condition);
      case ToBasicBlock(_, _, bb) =>
        var shortSize := ShortSuccessorSize(s.condition);
        var dest := layoutInfo[bb];
        if block == dest.block {
          var destinationOffset := dest.startOffset - (startOffset + shortSize);
          if -128 <= destinationOffset <= 127 {
            return shortSize;
          }
        }
        return LongSuccessorSize(s.condition);
    }

    /** Sets the start offset of each basic block, respecting alignments. */
    method UpdateStartOffsets(order: seq<BBId>, ghost block: BlockId) returns (nextBlockStart: nat)
      requires Valid(order, block, layoutInfo)
      modifies this
      ensures layoutInfo == Place(order, block, old(layoutInfo))
      ensures nextBlockStart == EndOf(order, old(layoutInfo), |order|)
    {
      ghost var l := layoutInfo;
      nextBlockStart := 0;
      for k := 0 to |order|
        invariant nextBlockStart == EndOf(order, l, k)
        invariant PlacedUpTo(order, block, l, layoutInfo, k)
      {
        PlaceOneMore(order, block, l, layoutInfo, k);
        var info := layoutInfo[order[k]];
        nextBlockStart := AlignUp(nextBlockStart, info.basicBlock.alignment);
        layoutInfo := layoutInfo[order[k] := info.(startOffset := nextBlockStart)];
        nextBlockStart :=
          nextBlockStart + info.basicBlockSize + SizeOf(info.successors[0]) + SizeOf(info.successors[1]);
      }
      PlacedAll(order, block, l, layoutInfo);
    }

    /** Grows the successors of one basic block to the sizes they need. */
    method ExpandBlock(id: BBId) returns (expanded: bool)
      requires id in layoutInfo && ValidInfo(layoutInfo[id], layoutInfo.Keys)
      modifies this
      ensures layoutInfo == old(layoutInfo)[id := ExpandInfo(old(layoutInfo), old(layoutInfo)[id])]
      ensures expanded <==> layoutInfo[id] != old(layoutInfo)[id]
    {
      var info := layoutInfo[id];
      expanded := false;
      var startOffset := info.startOffset + info.basicBlockSize;
      var i := 0;
      var sizes := info.successors;
      while i < 2
        modifies {}
        invariant 0 <= i <= 2 && |sizes| == 2
        invariant i == 0 ==> startOffset == info.startOffset + info.basicBlockSize && sizes == info.successors
        invariant i == 1 ==>
          && startOffset == info.startOffset + info.basicBlockSize + FirstRequired(layoutInfo, info)
          && sizes == [Grow(info.successors[0], FirstRequired(layoutInfo, info)), info.successors[1]]
        invariant i == 2 ==> sizes == ExpandInfo(layoutInfo, info).successors
        invariant expanded <==> sizes != info.successors
      {
        var successor := sizes[i];
        // Behind an unused slot there are only unused ones.
        if successor.Unused? {
          assert sizes == ExpandInfo(layoutInfo, info).successors;
          break;
        }
        if successor.Manifested? {
          var newSize := ComputeRequiredSuccessorSize(info.block, startOffset, successor);
          startOffset := startOffset + newSize;
          newSize := Max(successor.size, newSize);
          if newSize != successor.size {
            sizes := sizes[i := successor.(size := newSize)];
            expanded := true;
          }
        }
        i := i + 1;
      }
      layoutInfo := layoutInfo[id := info.(successors := sizes)];
    }

    /** Grows the successors of all basic blocks of the order. */
    method ExpandSuccessors(order: seq<BBId>, ghost block: BlockId) returns (expanded: bool)
      requires Valid(order, block, layoutInfo)
      modifies this
      ensures layoutInfo == Expand(order, block, old(layoutInfo))
      ensures expanded <==> layoutInfo != old(layoutInfo)
    {
      ghost var p := layoutInfo;
      expanded := false;
      for k := 0 to |order|
        invariant ExpandedUpTo(order, block, p, layoutInfo, k)
        invariant !expanded ==> forall j :: 0 <= j < k ==> ExpandInfo(p, p[order[j]]) == p[order[j]]
        invariant expanded ==> exists j :: 0 <= j < k && ExpandInfo(p, p[order[j]]) != p[order[j]]
      {
        ExpandOneMore(order, block, p, layoutInfo, k);
        SameRequired(p, layoutInfo, p[order[k]]);
        var grew := ExpandBlock(order[k]);
        expanded := expanded || grew;
      }
      ExpandedAll(order, block, p, layoutInfo);
      if !expanded {
        ExpandedNone(order, block, p);
      }
    }

    /** Lays an order out: expands successors until the layout is stable, then gives the new block its size
        and its data. */
    method GenerateBlockLayout(order: seq<BBId>, block: BlockId) returns (ghost passes: nat)
      requires Valid(order, block, layoutInfo) && graph.Valid() && block in graph.blocks
      modifies this, graph
      ensures layoutInfo == Relax(order, block, old(layoutInfo)) && passes == Passes(order, block, old(layoutInfo))
      ensures graph.Valid() && graph.nextBlockId == old(graph.nextBlockId)
      ensures var size := EndOf(order, layoutInfo, |order|);
        graph.blocks == old(graph.blocks)[block := old(graph.blocks)[block].(size := size, data := Zeros(size))]
    {
      passes := 0;
      while true
        invariant Valid(order, block, layoutInfo)
        invariant Relax(order, block, layoutInfo) == Relax(order, block, old(layoutInfo))
        invariant passes + Passes(order, block, layoutInfo) == Passes(order, block, old(layoutInfo))
        invariant graph.Valid() && graph.blocks == old(graph.blocks) && graph.nextBlockId == old(graph.nextBlockId)
        decreases Slack(order, layoutInfo, |order|)
      {
        ghost var l := layoutInfo;
        PassProgress(order, block, l);
        passes := passes + 1;
        var nextBlockStart := UpdateStartOffsets(order, block);
        EndIgnoresPlacement(order, block, l, layoutInfo);
        var expanded := ExpandSuccessors(order, block);
        if !expanded {
          graph.ReplaceData(block, nextBlockStart, Zeros(nextBlockStart));
          return;
        }
      }
    }

    /** Copies references to the new block, starting at `offset`. */
    method CopyReferences(references: map<int, BasicBlockReference>, ghost size: nat, offset: int, newBlock: BlockId)
      requires graph.Valid() && newBlock in graph.blocks && forall o :: o in references ==> 0 <= o < size
      requires Linkable(graph.blocks.Keys, layoutInfo, references)
      requires forall o :: o in references ==> offset + o !in graph.blocks[newBlock].references
      modifies graph
      ensures graph.Valid() && graph.nextBlockId == old(graph.nextBlockId)
      ensures HasReferences(Strip(old(graph.blocks)), graph.blocks, newBlock,
        old(graph.blocks)[newBlock].references + ShiftedReferences(layoutInfo, references, size, offset))
    {
      hide HasReferences, Strip, Mirrored, WellSized, ShiftedReferences;
      ghost var f, before := Strip(graph.blocks), graph.blocks[newBlock].references;
      ghost var refs := before;
      var todo := references.Keys;
      HasOwn(graph.blocks, newBlock);
      while todo != {}
        invariant graph.Valid() && graph.nextBlockId == old(graph.nextBlockId) && todo <= references.Keys
        invariant HasReferences(f, graph.blocks, newBlock, refs)
        invariant AddedSoFar(layoutInfo, references, todo, offset, before, refs)
        decreases |todo|
      {
        var k := Pick(todo);
        AddOneMore(layoutInfo, references, todo, offset, before, refs, k);
        var resolved := Resolve(layoutInfo, references[k]);
        CopyReference(newBlock, offset + k, resolved, f, refs);
        refs, todo := refs[offset + k := resolved], todo - {k};
      }
      AddedAll(layoutInfo, references, size, offset, before, refs);
    }

    /** Sets one reference, which is new. */
    method CopyReference(newBlock: BlockId, offset: int, ref: Reference, ghost f: Graph, ghost refs: ReferenceMap)
      requires graph.Valid() && HasReferences(f, graph.blocks, newBlock, refs) && offset !in refs
      requires ref.referenced in f && ref.size > 0
      modifies graph
      ensures graph.Valid() && graph.nextBlockId == old(graph.nextBlockId)
      ensures HasReferences(f, graph.blocks, newBlock, refs[offset := ref])
    {
      ghost var g := graph.blocks;
      HasNow(f, g, newBlock, refs);
      var inserted := graph.SetReference(newBlock, offset, ref);
      assert inserted;
      HasNext(f, g, graph.blocks, newBlock, refs, refs[offset := ref]);
    }

    /** Fills a stretch of the buffer with NOPs. */
    method InsertNops(buffer: array<uint8>, offset: nat, bytes: nat)
      requires offset + bytes <= buffer.Length
      modifies buffer
      ensures buffer[..offset + bytes] == old(buffer[..offset]) + NopFill(bytes)
    {
      hide Nop;
      ghost var done := old(buffer[..offset]);
      var at, left := offset, bytes;
      while left >= 9
        invariant at + left == offset + bytes && |done| == at
        invariant buffer[..at] == done && done + NopFill(left) == old(buffer[..offset]) + NopFill(bytes)
      {
        CopyBytes(buffer, at, Nop(9));
        assert done + (Nop(9) + NopFill(left - 9)) == (done + Nop(9)) + NopFill(left - 9);
        done := done + Nop(9);
        at, left := at + 9, left - 9;
      }
      if left > 0 {
        CopyBytes(buffer, at, Nop(left));
      }
    }

    /** Copies instructions to the new block at `offset`: bytes and references. */
    method CopyInstructions(instructions: seq<Instruction>, offset: nat, newBlock: BlockId, buffer: array<uint8>)
      requires graph.Valid() && newBlock in graph.blocks && KeysWithin(graph.blocks[newBlock].references, 0, offset)
      requires InstructionsLink(graph.blocks.Keys, layoutInfo, instructions)
      requires offset + |InstructionBytes(instructions)| <= buffer.Length
      modifies graph, buffer
      ensures graph.Valid() && graph.nextBlockId == old(graph.nextBlockId)
      ensures buffer[..offset + |InstructionBytes(instructions)|]
        == old(buffer[..offset]) + InstructionBytes(instructions)
      ensures HasReferences(Strip(old(graph.blocks)), graph.blocks, newBlock,
        ReferencesOnto(layoutInfo, instructions, offset, old(graph.blocks)[newBlock].references))
    {
      hide Mirrored, WellSized, HasReferences, ShiftedReferences, Strip;
      ghost var f, refs := Strip(graph.blocks), graph.blocks[newBlock].references;
      ghost var done, all := buffer[..offset], buffer[..offset] + InstructionBytes(instructions);
      assert |all| <= buffer.Length;
      ghost var l := layoutInfo;
      var at: nat, rest := offset, instructions;
      HasOwn(graph.blocks, newBlock);
      ghost var whole := ReferencesOnto(l, instructions, offset, refs);
      while rest != []
        invariant graph.Valid() && graph.nextBlockId == old(graph.nextBlockId)
        invariant at <= |all| <= buffer.Length && buffer[..at] == done
        invariant HasReferences(f, graph.blocks, newBlock, refs)
        invariant Copying(f.Keys, l, rest, at, done, refs, all, whole)
        decreases |rest|
      {
        var instruction := rest[0];
        ghost var next := refs + ShiftedReferences(l, instruction.references, |instruction.data|, at);
        CopyNext(f.Keys, l, rest, at, done, refs, all, whole, next);
        CopyInstruction(instruction, at, newBlock, buffer, f, refs, done, next);
        refs, done, at, rest := next, done + instruction.data, at + |instruction.data|, rest[1..];
      }
    }

    /** Copies one instruction. */
    method CopyInstruction(instruction: Instruction, at: nat, newBlock: BlockId, buffer: array<uint8>, ghost f: Graph,
                           ghost refs: ReferenceMap, ghost done: seq<uint8>, ghost next: ReferenceMap)
      requires graph.Valid() && HasReferences(f, graph.blocks, newBlock, refs)
      requires at + |instruction.data| <= buffer.Length
      requires Linkable(f.Keys, layoutInfo, instruction.references) && KeysWithin(refs, 0, at) && buffer[..at] == done
      requires forall o :: o in instruction.references ==> 0 <= o < |instruction.data|
      requires next == refs + ShiftedReferences(layoutInfo, instruction.references, |instruction.data|, at)
      modifies graph, buffer
      ensures graph.Valid() && graph.nextBlockId == old(graph.nextBlockId)
      ensures buffer[..at + |instruction.data|] == done + instruction.data
      ensures HasReferences(f, graph.blocks, newBlock, next)
    {
      ghost var g := graph.blocks;
      HasNow(f, g, newBlock, refs);
      CopyBytes(buffer, at, instruction.data);
      NotYetSet(instruction.references, |instruction.data|, at, refs);
      CopyReferences(instruction.references, |instruction.data|, at, newBlock);
      HasNext(f, g, graph.blocks, newBlock, refs, next);
    }

    /** Assembles the instructions that implement the successors of a basic block. */
    method AssembleInstructions(info: BasicBlockLayoutInfo) returns (instructions: seq<Instruction>)
      requires CanEmitInfo(layoutInfo, info)
      ensures instructions == SlotInstructions(layoutInfo, info, 0) + SlotInstructions(layoutInfo, info, 1)
    {
      instructions := [];
      var successorStart := info.startOffset + info.basicBlockSize;
      var i := 0;
      while i < 2
        invariant 0 <= i <= 2
        invariant i == 0 ==> instructions == []
        invariant i == 1 ==> instructions == SlotInstructions(layoutInfo, info, 0)
        invariant i == 2 ==>
          instructions == SlotInstructions(layoutInfo, info, 0) + SlotInstructions(layoutInfo, info, 1)
        invariant i < 2 ==> successorStart == BranchStart(info, i)
      {
        var successor := info.successors[i];
        if successor.Unused? {
          break;
        }
        if successor.Manifested? {
          var short := successor.size == ShortSuccessorSize(successor.condition);
          var resolved := Resolve(layoutInfo, successor.reference);
          var refOffset := successorStart + successor.size;
          if resolved.referenced == info.block {
            refOffset := resolved.offset;
          }
          var reference := successor.reference.(kind := PC_RELATIVE_REF, size := if short then 1 else 4);
          instructions := instructions + [
            Instruction(BranchBytes(successor.condition, short, successorStart, refOffset),
                        map[OpcodeSize(successor.condition, short) := reference])];
          successorStart := successorStart + successor.size;
        }
        i := i + 1;
      }
    }

    /** Writes the branches that implement the successors of a basic block. */
    method AssembleSuccessors(info: BasicBlockLayoutInfo, buffer: array<uint8>)
      requires graph.Valid() && info.block in graph.blocks && CanEmitInfo(layoutInfo, info)
      requires SuccessorsLink(graph.blocks.Keys, layoutInfo, info)
      requires KeysWithin(graph.blocks[info.block].references, 0, BranchStart(info, 0))
      requires info.startOffset + TotalSize(info) <= buffer.Length
      modifies graph, buffer
      ensures graph.Valid() && graph.nextBlockId == old(graph.nextBlockId)
      ensures buffer[..info.startOffset + TotalSize(info)]
        == old(buffer[..BranchStart(info, 0)]) + (SlotBytes(layoutInfo, info, 0) + SlotBytes(layoutInfo, info, 1))
      ensures HasReferences(Strip(old(graph.blocks)), graph.blocks, info.block,
        old(graph.blocks)[info.block].references
          + SlotReferences(layoutInfo, info, 0) + SlotReferences(layoutInfo, info, 1))
    {
      hide SlotBytes, SlotReferences, HasReferences, InstructionsLink, Mirrored, WellSized, CanEmitInfo, Strip;
      var instructions := AssembleInstructions(info);
      BranchInstructions(layoutInfo, info, instructions, graph.blocks[info.block].references);
      BranchesLink(graph.blocks.Keys, layoutInfo, info);
      BranchesLength(layoutInfo, info);
      CopyInstructions(instructions, info.startOffset + info.basicBlockSize, info.block, buffer);
    }

    /** Writes the bytes and references of a basic block without its successors. */
    method EmitBody(info: BasicBlockLayoutInfo, buffer: array<uint8>)
      requires graph.Valid() && InfoLinks(graph.blocks.Keys, layoutInfo, info)
      requires KeysWithin(graph.blocks[info.block].references, 0, info.startOffset)
      requires BranchStart(info, 0) <= buffer.Length
      modifies graph, buffer
      ensures graph.Valid() && graph.nextBlockId == old(graph.nextBlockId)
      ensures buffer[..BranchStart(info, 0)] == old(buffer[..info.startOffset]) + BodyBytes(info.basicBlock)
      ensures HasReferences(Strip(old(graph.blocks)), graph.blocks, info.block,
        old(graph.blocks)[info.block].references + BodyReferences(layoutInfo, info))
    {
      ghost var refs := graph.blocks[info.block].references;
      match info.basicBlock {
        case Data(_, data, references) =>
          CopyBytes(buffer, info.startOffset, data);
          NotYetSet(references, |data|, info.startOffset, refs);
          CopyReferences(references, |data|, info.startOffset, info.block);
        case Code(_, instructions, _) =>
          ReferencesOntoAdds(layoutInfo, instructions, info.startOffset, refs);
          CopyInstructions(instructions, info.startOffset, info.block, buffer);
        case End(_) =>
          HasOwn(graph.blocks, info.block);
          assert refs + map[] == refs;
      }
    }

    /** Fills the padding in front of a basic block. */
    method EmitPadding(info: BasicBlockLayoutInfo, prevOffset: nat, buffer: array<uint8>)
      requires prevOffset <= info.startOffset <= buffer.Length
      modifies buffer
      ensures buffer[..info.startOffset] == old(buffer[..prevOffset]) + NopFill(info.startOffset - prevOffset)
    {
      if info.startOffset > prevOffset {
        InsertNops(buffer, prevOffset, info.startOffset - prevOffset);
      }
    }

    /** Writes the body of a basic block behind what is there. */
    method EmitBodyOnto(info: BasicBlockLayoutInfo, buffer: array<uint8>, ghost f: Graph, ghost refs: ReferenceMap,
                        ghost done: seq<uint8>, ghost all: ReferenceMap)
      requires graph.Valid() && InfoLinks(f.Keys, layoutInfo, info)
      requires HasReferences(f, graph.blocks, info.block, refs) && KeysWithin(refs, 0, info.startOffset)
      requires BranchStart(info, 0) <= buffer.Length && buffer[..info.startOffset] == done
      requires all == refs + BodyReferences(layoutInfo, info)
      modifies graph, buffer
      ensures graph.Valid() && graph.nextBlockId == old(graph.nextBlockId)
      ensures buffer[..BranchStart(info, 0)] == done + BodyBytes(info.basicBlock)
      ensures HasReferences(f, graph.blocks, info.block, all) && KeysWithin(all, 0, BranchStart(info, 0))
    {
      ghost var g := graph.blocks;
      HasNow(f, g, info.block, refs);
      EmitBody(info, buffer);
      HasNext(f, g, graph.blocks, info.block, refs, all);
      BodyKeys(layoutInfo, info);
      KeysTogether(refs, BodyReferences(layoutInfo, info), info.startOffset, BranchStart(info, 0));
    }

    /** Writes the branches of a basic block, if it is code. */
    method EmitSuccessors(info: BasicBlockLayoutInfo, buffer: array<uint8>, ghost f: Graph, ghost refs: ReferenceMap,
                          ghost done: seq<uint8>)
      requires graph.Valid() && InfoLinks(f.Keys, layoutInfo, info)
      requires HasReferences(f, graph.blocks, info.block, refs) && KeysWithin(refs, 0, BranchStart(info, 0))
      requires info.startOffset + TotalSize(info) <= buffer.Length && buffer[..BranchStart(info, 0)] == done
      modifies graph, buffer
      ensures graph.Valid() && graph.nextBlockId == old(graph.nextBlockId)
      ensures buffer[..info.startOffset + TotalSize(info)]
        == done + (SlotBytes(layoutInfo, info, 0) + SlotBytes(layoutInfo, info, 1))
      ensures HasReferences(f, graph.blocks, info.block,
        refs + SlotReferences(layoutInfo, info, 0) + SlotReferences(layoutInfo, info, 1))
    {
      ghost var l, g := layoutInfo, graph.blocks;
      HasNow(f, g, info.block, refs);
      if info.basicBlock.Code? {
        AssembleSuccessors(info, buffer);
        HasNext(f, g, graph.blocks, info.block, refs, refs + SlotReferences(l, info, 0) + SlotReferences(l, info, 1));
      } else {
        assert refs + map[] + map[] == refs && done + ([] + []) == done;
      }
    }

    /** Writes a basic block: padding up to its start, its body and its branches. */
    method EmitBasicBlock(info: BasicBlockLayoutInfo, prevOffset: nat, buffer: array<uint8>, ghost f: Graph,
                          ghost refs: ReferenceMap, ghost done: seq<uint8>)
      requires graph.Valid() && InfoLinks(f.Keys, layoutInfo, info) && prevOffset <= info.startOffset
      requires HasReferences(f, graph.blocks, info.block, refs) && KeysWithin(refs, 0, prevOffset)
      requires info.startOffset + TotalSize(info) <= buffer.Length && buffer[..prevOffset] == done
      modifies graph, buffer
      ensures graph.Valid() && graph.nextBlockId == old(graph.nextBlockId)
      ensures buffer[..info.startOffset + TotalSize(info)] == done + InfoBytes(layoutInfo, info, prevOffset)
      ensures HasReferences(f, graph.blocks, info.block, refs + InfoReferences(layoutInfo, info))
    {
      hide HasReferences, NopFill, BodyBytes, SlotBytes, SlotReferences, BodyReferences, Mirrored, WellSized;
      ghost var l, body := layoutInfo, BodyReferences(layoutInfo, info);
      ghost var pad := NopFill(info.startOffset - prevOffset);
      EmitPadding(info, prevOffset, buffer);
      EmitBodyOnto(info, buffer, f, refs, done + pad, refs + body);
      EmitSuccessors(info, buffer, f, refs + body, done + pad + BodyBytes(info.basicBlock));
      AddFour(refs, body, SlotReferences(l, info, 0), SlotReferences(l, info, 1));
      JoinBytes(done, pad, BodyBytes(info.basicBlock), SlotBytes(l, info, 0), SlotBytes(l, info, 1));
    }

    /** Writes the basic blocks of an order into a buffer and their references into the new block. */
    method FillBlock(order: seq<BBId>, ghost block: BlockId, buffer: array<uint8>, ghost f: Graph)
      requires graph.Valid() && HasReferences(f, graph.blocks, block, map[])
      requires OrderLinks(f.Keys, order, block, layoutInfo)
      requires buffer.Length == EndOf(order, layoutInfo, |order|)
      modifies graph, buffer
      ensures graph.Valid() && graph.nextBlockId == old(graph.nextBlockId)
      ensures buffer[..] == BlockImage(order, block, layoutInfo)
      ensures HasReferences(f, graph.blocks, block, ImageReferences(order, block, layoutInfo))
    {
      ghost var done: seq<uint8>, refs: ReferenceMap := [], map[];
      var prevOffset := 0;
      for k := 0 to |order|
        invariant graph.Valid() && graph.nextBlockId == old(graph.nextBlockId)
        invariant HasReferences(f, graph.blocks, block, refs)
        invariant prevOffset == EndOf(order, layoutInfo, k) <= buffer.Length && buffer[..prevOffset] == done
        invariant Populated(order, block, layoutInfo, k, done, refs)
      {
        prevOffset, done, refs := EmitNext(order, block, k, prevOffset, buffer, f, done, refs);
      }
      assert buffer[..] == buffer[..prevOffset];
    }

    /** Writes the basic block at position `k`. */
    method EmitNext(order: seq<BBId>, ghost block: BlockId, k: nat, prevOffset: nat, buffer: array<uint8>,
                    ghost f: Graph, ghost done: seq<uint8>, ghost refs: ReferenceMap)
      returns (nextOffset: nat, ghost done': seq<uint8>, ghost refs': ReferenceMap)
      requires graph.Valid() && OrderLinks(f.Keys, order, block, layoutInfo) && k < |order|
      requires HasReferences(f, graph.blocks, block, refs) && Populated(order, block, layoutInfo, k, done, refs)
      requires prevOffset == EndOf(order, layoutInfo, k) <= buffer.Length && buffer[..prevOffset] == done
      requires buffer.Length == EndOf(order, layoutInfo, |order|)
      modifies graph, buffer
      ensures graph.Valid() && graph.nextBlockId == old(graph.nextBlockId)
      ensures HasReferences(f, graph.blocks, block, refs') && Populated(order, block, layoutInfo, k + 1, done', refs')
      ensures nextOffset == EndOf(order, layoutInfo, k + 1) <= buffer.Length && buffer[..nextOffset] == done'
    {
      ghost var l := layoutInfo;
      var info := layoutInfo[order[k]];
      StartsBehindEnd(order, block, l, k);
      done', refs' := done + InfoBytes(l, info, prevOffset), refs + InfoReferences(l, info);
      PopulateStep(f.Keys, order, block, l, k, done, refs, info, done', refs');
      EmitBasicBlock(info, prevOffset, buffer, f, refs, done);
      nextOffset := info.startOffset + info.basicBlockSize + SizeOf(info.successors[0]) + SizeOf(info.successors[1]);
    }

    /** Populates a new block with the basic blocks of an order. */
    method PopulateBlock(order: seq<BBId>, block: BlockId)
      requires graph.Valid() && block in graph.blocks && graph.blocks[block].references == map[]
      requires OrderLinks(graph.blocks.Keys, order, block, layoutInfo)
      requires |graph.blocks[block].data| == EndOf(order, layoutInfo, |order|)
      modifies graph
      ensures graph.Valid() && graph.nextBlockId == old(graph.nextBlockId)
      ensures Strip(graph.blocks) == Strip(old(graph.blocks))[block := Strip(old(graph.blocks))[block].(
        data := BlockImage(order, block, layoutInfo), references := ImageReferences(order, block, layoutInfo))]
    {
      hide BlockImage, ImageReferences, CanEmit;
      var data, size := graph.blocks[block].data, graph.blocks[block].size;
      var buffer := new uint8[|data|](i requires 0 <= i < |data| => data[i]);
      ghost var f := Strip(graph.blocks);
      StripAt(graph.blocks, block);
      HasOwn(graph.blocks, block);
      FillBlock(order, block, buffer, f);
      ghost var g, refs := graph.blocks, ImageReferences(order, block, layoutInfo);
      HasNow(f, g, block, refs);
      StripAt(g, block);
      graph.ReplaceData(block, size, buffer[..]);
      EmittedAndLinked(f, g, graph.blocks, block, buffer[..], refs, size);
    }

    /** Makes a new block for a description. */
    method CreateBlock(d: Description) returns (block: BlockId)
      requires graph.Valid()
      modifies graph
      ensures graph.Valid() && block !in old(graph.blocks)
      ensures graph.blocks == old(graph.blocks)[block :=
        Block(d.kind, 0, d.alignment, -1, d.section, d.attributes, d.name, "", map[], [], map[], {})]
    {
      block := graph.AddBlock(d.kind, 0, d.name);
      ghost var g := graph.blocks;
      graph.blocks := graph.blocks[block := graph.blocks[block].(
        alignment := d.alignment, section := d.section, attributes := d.attributes)];
      SameLinks(g, graph.blocks);
    }

    /** Makes a new block with layout records for each description that is not empty. */
    method CreateBlocks(descriptions: seq<Description>) returns (plans: seq<Plan>)
      requires graph.Valid() && layoutInfo == map[] && CanDescribe(basicBlocks, descriptions)
      modifies this, graph
      ensures graph.Valid() && LayoutCreated(basicBlocks, plans, layoutInfo)
      ensures GraphCreated(old(graph.blocks), graph.blocks, BlocksOf(plans))
      ensures Orders(plans) == NonEmptyOrders(descriptions, |descriptions|)
      ensures AllAsDescribed(basicBlocks, descriptions, |descriptions|, plans, graph.blocks)
    {
      ghost var g0 := graph.blocks;
      plans := [];
      assert LayoutCreated(basicBlocks, plans, layoutInfo) && GraphCreated(g0, g0, BlocksOf(plans));
      assert Orders(plans) == NonEmptyOrders(descriptions, 0);
      assert AllAsDescribed(basicBlocks, descriptions, 0, plans, g0);
      hide Mirrored, WellSized, CanDescribe, LayoutCreated, GraphCreated, AllAsDescribed, Orders, NonEmptyOrders;
      for i := 0 to |descriptions|
        invariant graph.Valid() && LayoutCreated(basicBlocks, plans, layoutInfo)
        invariant GraphCreated(g0, graph.blocks, BlocksOf(plans))
        invariant Orders(plans) == NonEmptyOrders(descriptions, i)
        invariant AllAsDescribed(basicBlocks, descriptions, i, plans, graph.blocks)
      {
        plans := PlanNext(descriptions, i, plans, g0);
      }
    }

    /** Makes a new block with layout records for a description, unless that is empty. */
    method PlanNext(descriptions: seq<Description>, i: nat, plans: seq<Plan>, ghost g0: Graph)
      returns (more: seq<Plan>)
      requires graph.Valid() && LayoutCreated(basicBlocks, plans, layoutInfo)
      requires i < |descriptions| && CanDescribe(basicBlocks, descriptions)
      requires GraphCreated(g0, graph.blocks, BlocksOf(plans)) && Orders(plans) == NonEmptyOrders(descriptions, i)
      requires AllAsDescribed(basicBlocks, descriptions, i, plans, graph.blocks)
      modifies this, graph
      ensures graph.Valid() && LayoutCreated(basicBlocks, more, layoutInfo)
      ensures GraphCreated(g0, graph.blocks, BlocksOf(more)) && Orders(more) == NonEmptyOrders(descriptions, i + 1)
      ensures AllAsDescribed(basicBlocks, descriptions, i + 1, more, graph.blocks)
    {
      hide Mirrored, WellSized, CanInitialize, LayoutCreated, GraphCreated, DescribedAt;
      var d := descriptions[i];
      more := plans;
      if d.order != [] {
        NotYetPlanned(descriptions, i, plans);
        ghost var g := graph.blocks;
        var block := PlanBlock(d, plans, g0);
        more := plans + [Plan(block, d.order)];
        OneMoreOrder(plans, Plan(block, d.order));
        DescribesNext(basicBlocks, descriptions, i, plans, g, Plan(block, d.order), graph.blocks);
      }
    }

    /** Makes a new block with layout records. */
    method PlanBlock(d: Description, ghost plans: seq<Plan>, ghost g0: Graph) returns (block: BlockId)
      requires graph.Valid() && LayoutCreated(basicBlocks, plans, layoutInfo)
      requires GraphCreated(g0, graph.blocks, BlocksOf(plans))
      requires Distinct(d.order) && CanInitialize(basicBlocks, d.order)
      requires forall id :: id in AllIds(plans) ==> id !in d.order
      modifies this, graph
      ensures graph.Valid() && LayoutCreated(basicBlocks, plans + [Plan(block, d.order)], layoutInfo)
      ensures GraphCreated(g0, graph.blocks, BlocksOf(plans + [Plan(block, d.order)]))
      ensures DescribedAt(basicBlocks, d, Plan(block, d.order), graph.blocks)
      ensures forall b :: b in old(graph.blocks) ==> b in graph.blocks && graph.blocks[b] == old(graph.blocks)[b]
    {
      ghost var g, l := graph.blocks, layoutInfo;
      block := MakeBlock(d);
      ghost var plan := Plan(block, d.order);
      CreateNext(basicBlocks, plans, l, plan, layoutInfo);
      StillApart(plans, plan);
      GraphGrows(g0, g, graph.blocks, BlocksOf(plans), block, BlocksOf(plans + [plan]));
    }

    method MakeBlock(d: Description) returns (block: BlockId)
      requires graph.Valid() && Distinct(d.order) && CanInitialize(basicBlocks, d.order)
      requires forall id :: id in d.order ==> id !in layoutInfo
      modifies this, graph
      ensures graph.Valid() && block !in old(graph.blocks)
      ensures InitializedUpTo(basicBlocks, d.order, block, old(layoutInfo), layoutInfo, |d.order|)
      ensures graph.blocks.Keys == old(graph.blocks.Keys) + {block} && graph.blocks[block].references == map[]
      ensures forall b :: b in old(graph.blocks) ==> graph.blocks[b] == old(graph.blocks)[b]
      ensures AsDescribed(basicBlocks, d, graph.blocks[block])
    {
      block := CreateBlock(d);
      MaxIsDescribed(basicBlocks, d);
      InitializeBlockLayout(d.order, block);
    }

    /** Lays all orders out. */
    method LayOutBlocks(plans: seq<Plan>, ghost g0: Graph, ghost news: set<BlockId>)
      requires graph.Valid() && LaidOutUpTo(basicBlocks, plans, layoutInfo, news, 0)
      requires GraphCreated(g0, graph.blocks, news)
      modifies this, graph
      ensures graph.Valid() && LaidOutUpTo(basicBlocks, plans, layoutInfo, news, |plans|)
      ensures layoutInfo.Keys == old(layoutInfo.Keys) && GraphCreated(g0, graph.blocks, news)
      ensures AllSized(graph.blocks, plans, layoutInfo, |plans|) && SameHeaders(old(graph.blocks), graph.blocks)
    {
      for i := 0 to |plans|
        invariant graph.Valid() && LaidOutUpTo(basicBlocks, plans, layoutInfo, news, i)
        invariant layoutInfo.Keys == old(layoutInfo.Keys) && GraphCreated(g0, graph.blocks, news)
        invariant AllSized(graph.blocks, plans, layoutInfo, i) && SameHeaders(old(graph.blocks), graph.blocks)
      {
        LayOutBlock(plans, i, g0, news);
      }
    }

    /** Lays one order out. */
    method LayOutBlock(plans: seq<Plan>, i: nat, ghost g0: Graph, ghost news: set<BlockId>)
      requires graph.Valid() && i < |plans| && LaidOutUpTo(basicBlocks, plans, layoutInfo, news, i)
      requires GraphCreated(g0, graph.blocks, news) && AllSized(graph.blocks, plans, layoutInfo, i)
      modifies this, graph
      ensures graph.Valid() && LaidOutUpTo(basicBlocks, plans, layoutInfo, news, i + 1)
      ensures layoutInfo.Keys == old(layoutInfo.Keys) && GraphCreated(g0, graph.blocks, news)
      ensures AllSized(graph.blocks, plans, layoutInfo, i + 1) && SameHeaders(old(graph.blocks), graph.blocks)
    {
      ghost var g, l := graph.blocks, layoutInfo;
      assert Ready(basicBlocks, plans[i], l, news, false);
      ghost var passes := GenerateBlockLayout(plans[i].order, plans[i].block);
      LayOutNext(basicBlocks, plans, l, layoutInfo, news, i);
      SizedNext(basicBlocks, g, graph.blocks, plans, l, layoutInfo, news, i);
    }

    /** Populates all new blocks. */
    method PopulateBlocks(plans: seq<Plan>, ghost f0: Graph)
      requires graph.Valid() && f0 == Strip(graph.blocks) && PlansApart(plans)
      requires forall j :: 0 <= j < |plans| ==> Fillable(f0, plans[j], layoutInfo)
      modifies graph
      ensures graph.Valid() && PopulatedUpTo(f0, Strip(graph.blocks), plans, layoutInfo, |plans|)
    {
      assert PopulatedUpTo(f0, f0, plans, layoutInfo, 0);
      hide Mirrored, WellSized, PlansApart, PopulatedUpTo, Strip, Fillable;
      for i := 0 to |plans|
        invariant graph.Valid() && PopulatedUpTo(f0, Strip(graph.blocks), plans, layoutInfo, i)
      {
        PopulateOneMore(plans, i, f0);
      }
    }

    /** Populates one more new block. */
    method PopulateOneMore(plans: seq<Plan>, i: nat, ghost f0: Graph)
      requires graph.Valid() && PlansApart(plans) && i < |plans| && Fillable(f0, plans[i], layoutInfo)
      requires PopulatedUpTo(f0, Strip(graph.blocks), plans, layoutInfo, i)
      modifies graph
      ensures graph.Valid() && PopulatedUpTo(f0, Strip(graph.blocks), plans, layoutInfo, i + 1)
    {
      hide Mirrored, WellSized, BlockImage, ImageReferences, PlansApart, Strip;
      ghost var f := Strip(graph.blocks);
      StillFillable(f0, f, graph.blocks, plans[i], layoutInfo);
      PopulateBlock(plans[i].order, plans[i].block);
      PopulatesNext(f0, f, Strip(graph.blocks), plans, layoutInfo, i);
    }

    /** Directs the external referrers of a basic block to its start in the new block. */
    method UpdateReferrers(bb: BBId, owners: Owners)
      requires graph.Valid() && bb in layoutInfo && layoutInfo[bb].block in graph.blocks
      requires ReferrersExist(Strip(graph.blocks), owners)
      modifies graph
      ensures graph.Valid() && graph.nextBlockId == old(graph.nextBlockId)
      ensures Strip(graph.blocks) == Retarget(Strip(old(graph.blocks)), ReferrersOf(owners, bb), LandAt(layoutInfo, bb))
    {
      hide Mirrored, WellSized, Strip, Retarget, Updating, ReferrersExist;
      ghost var g := graph.blocks;
      var todo := ReferrersOf(owners, bb);
      UpdateBegins(g, owners, layoutInfo, bb);
      while todo != {}
        invariant graph.Valid() && graph.nextBlockId == old(graph.nextBlockId)
        invariant Updating(g, graph.blocks, owners, layoutInfo, bb, todo)
        decreases |todo|
      {
        var referrer := Pick(todo);
        ghost var h := graph.blocks;
        UpdateVisits(g, h, owners, layoutInfo, bb, todo, referrer);
        var oldRef := graph.blocks[referrer.0].references[referrer.1];
        var isNew := graph.SetReference(referrer.0, referrer.1, Landing(layoutInfo, bb, oldRef));
        UpdateAdvances(g, h, graph.blocks, owners, layoutInfo, bb, todo, referrer);
        todo := todo - {referrer};
      }
      UpdateEnds(g, graph.blocks, owners, layoutInfo, bb);
    }

    /** Directs all external referrers to the new places of their basic blocks. */
    method TransferReferrers(owners: Owners)
      requires graph.Valid() && ReferrersExist(Strip(graph.blocks), owners)
      requires forall bb :: bb in layoutInfo ==> layoutInfo[bb].block in graph.blocks
      modifies graph
      ensures graph.Valid() && graph.nextBlockId == old(graph.nextBlockId)
      ensures Strip(graph.blocks) == Redirect(Strip(old(graph.blocks)), owners, layoutInfo, layoutInfo.Keys)
    {
      hide Mirrored, WellSized, Strip, Redirect, Redirecting, ReferrersExist;
      ghost var f, l := Strip(graph.blocks), layoutInfo;
      var todo := layoutInfo.Keys;
      RedirectBegins(graph.blocks, owners, l);
      while todo != {}
        invariant graph.Valid() && graph.nextBlockId == old(graph.nextBlockId)
        invariant todo <= l.Keys && Redirecting(f, graph.blocks, owners, l, todo)
        decreases |todo|
      {
        var bb := Pick(todo);
        ghost var g := graph.blocks;
        RedirectVisits(f, g, owners, l, todo);
        UpdateReferrers(bb, owners);
        RedirectAdvances(f, g, graph.blocks, owners, l, todo, bb);
        todo := todo - {bb};
      }
      RedirectEnds(f, graph.blocks, owners, l);
    }

    /** Removes the original block, if there is one, which nothing but itself refers to any more. */
    method RemoveOriginalBlock(original: Option<BlockId>)
      requires graph.Valid() && Replaced(original) <= graph.blocks.Keys
      requires forall b: BlockId, o: int :: RefersInto(graph.blocks, b, o, Replaced(original)) ==>
        b in Replaced(original)
      modifies graph
      ensures graph.Valid()
      ensures Strip(graph.blocks) == Strip(old(graph.blocks)) - Replaced(original)
    {
      if original.None? {
        return;
      }
      ghost var g := graph.blocks;
      var id := original.value;
      assert forall b: BlockId, o: int :: Refers(g, b, o, id) ==> RefersInto(g, b, o, {id});
      graph.RemoveAllReferences(id);
      OriginalDisconnected(g, graph.blocks, id);
      StripWithout(graph.blocks, id);
      var removed := graph.RemoveBlock(id);
    }
  }
}
