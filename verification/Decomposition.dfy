/** Cutting the linear code of a block into basic blocks: what the cuts are, and that following them visits
    the same instructions as running the code. */
module Decomposition {
  import opened Types
  import opened Conditions

  // ----- instructions -----

  /** Where a branch goes: to an offset of the block itself, or to another block by a reference of some kind and
      size. */
  datatype Target = Here(offset: int) | There(block: BlockId, offset: int, kind: nat, size: nat)

  /** Whether the destination of a branch comes from a reference in its bytes, and of which sort, or from the
      displacement alone. */
  datatype Link = Direct | Indirect | NoLink

  /** What an instruction does to control. A branch whose condition has no code is one that cannot be
      represented. */
  datatype Kind =
    | Normal
    | Return
    | NonReturningCall
    | IndirectJump
    | SystemCall
    | Branch(condition: Condition, target: Target, link: Link)

  datatype Insn = Insn(size: nat, kind: Kind)

  /** What the instruction decoder makes of each offset; nothing where it fails. */
  type Decoder = map<int, Insn>

  predicate ValidDecoder(d: Decoder) { forall o :: o in d ==> d[o].size > 0 }

  function Bytes(s: seq<Insn>): nat
  {
    if s == [] then 0 else Bytes(s[..|s| - 1]) + s[|s| - 1].size
  }

  /** The instructions are those at `start` and behind. */
  ghost predicate Lists(d: Decoder, start: int, s: seq<Insn>)
  {
    forall i {:trigger ListedAt(d, start, s, i)} :: 0 <= i < |s| ==> ListedAt(d, start, s, i)
  }

  predicate ListedAt(d: Decoder, start: int, s: seq<Insn>, i: nat)
    requires i < |s|
  {
    start + Bytes(s[..i]) in d && d[start + Bytes(s[..i])] == s[i]
  }

  predicate AllNormal(s: seq<Insn>) { forall i :: 0 <= i < |s| ==> s[i].kind.Normal? }

  predicate EndsControl(k: Kind) { k.Return? || k.NonReturningCall? || k.IndirectJump? }

  // ----- cuts -----

  /** A possible continuation; `instructionSize` is the size of the branch it stands for, if it does. */
  datatype Succ = Succ(condition: Condition, target: Target, instructionSize: nat)

  datatype Cut =
    | CodeCut(size: nat, instructions: seq<Insn>, successors: seq<Succ>)
    | DataCut(size: nat)

  /** The cuts by the offset at which they start. */
  type Space = map<int, Cut>

  /** The successors that stand for a branch that ends at `next`. */
  function SuccessorsOf(k: Kind, size: nat, next: int): seq<Succ>
    requires k.Branch? && k.condition != INVALID_CONDITION
  {
    var taken := Succ(k.condition, k.target, size);
    if IsConditionalBranch(k.condition) then [taken, Succ(InvertCondition(k.condition), Here(next), 0)] else [taken]
  }

  function Fallthrough(next: int): seq<Succ> { [Succ(CONDITION_TRUE, Here(next), 0)] }

  /** The cut at `start` holds the code there: its instructions, and the branch behind them if there is one
      left. Otherwise control falls through to the next cut, or ends. */
  ghost predicate CutHolds(d: Decoder, codeEnd: int, start: int, c: Cut)
  {
    c.CodeCut? ==>
      && Lists(d, start, c.instructions)
      && var e, end := start + Bytes(c.instructions), start + c.size;
      if e < end then
        && AllNormal(c.instructions)
        && e in d && d[e].kind.Branch? && d[e].kind.condition != INVALID_CONDITION && e + d[e].size == end
        && c.successors == SuccessorsOf(d[e].kind, d[e].size, end)
      else
        && e == end && c.instructions != []
        && AllNormal(c.instructions[..|c.instructions| - 1])
        && var last := c.instructions[|c.instructions| - 1].kind;
        if last.Normal? then
          (c.successors == Fallthrough(end) && end < codeEnd) || (c.successors == [] && end == codeEnd)
        else EndsControl(last) && c.successors == []
  }

  /** The cuts tile the bytes from 0 to `lo` and those from `hi` to `n`, code below and data above. */
  ghost predicate Tiles(space: Space, lo: int, hi: int, n: int)
  {
    && 0 <= lo <= hi <= n
    && (forall s :: s in space ==> InPlace(s, space[s], lo, hi, n))
    && (forall s, t :: s in space && t in space && s < t ==> s + space[s].size <= t)
    && (forall s {:trigger Continues(space, s, lo, n)} :: Continues(space, s, lo, n))
    && (lo > 0 ==> 0 in space)
    && (hi < n ==> hi in space)
  }

  /** Another cut starts where the one at `s` ends, unless that is at the end of the code or of the data. */
  predicate Continues(space: Space, s: int, lo: int, n: int)
  {
    s in space ==> s + space[s].size in space || s + space[s].size == lo || s + space[s].size == n
  }

  predicate InPlace(s: int, c: Cut, lo: int, hi: int, n: int)
  {
    && 0 <= s && c.size > 0
    && if c.CodeCut? then s + c.size <= lo else hi <= s && s + c.size <= n
  }

  /** A finished decomposition: code tiles the code range and data the rest, every cut holds its code, and
      every branch within the block leads to the start of a code cut. */
  ghost predicate Decomposed(d: Decoder, codeEnd: int, n: int, space: Space)
  {
    && ValidDecoder(d)
    && Tiles(space, codeEnd, codeEnd, n)
    && (forall s :: s in space ==> CutHolds(d, codeEnd, s, space[s]))
    && (forall s :: s in space ==> TargetsStart(space, space[s]))
  }

  ghost predicate TargetsStart(space: Space, c: Cut)
  {
    c.CodeCut? ==> forall i :: 0 <= i < |c.successors| && c.successors[i].target.Here? ==>
      StartsCode(space, c.successors[i].target.offset)
  }

  predicate StartsCode(space: Space, o: int) { o in space && space[o].CodeCut? }

  // ----- running the code -----

  /** Where control is after an instruction. */
  datatype Control = At(offset: int) | Leaves(target: Target) | Ends | RunsOff

  function Jump(t: Target): Control { if t.Here? then At(t.offset) else Leaves(t) }

  /** One instruction of the linear code. */
  function LinearStep(d: Decoder, codeEnd: int, o: int, f: Flags): Control
    requires o in d
  {
    var next := o + d[o].size;
    match d[o].kind
    case Normal => if next == codeEnd then RunsOff else At(next)
    case Branch(c, t, _) => if Holds(c, f) then Jump(t) else At(next)
    case _ => Ends
  }

  /** The offsets of the instructions that are run, and where control is then; the flags say how the branch at
      each instruction is decided. */
  function LinearRun(d: Decoder, codeEnd: int, o: int, fs: seq<Flags>): (seq<int>, Control)
    decreases |fs|
  {
    if fs == [] || o !in d then ([], At(o))
    else
      var c := LinearStep(d, codeEnd, o, fs[0]);
      if c.At? then
        var rest := LinearRun(d, codeEnd, c.offset, fs[1..]);
        ([o] + rest.0, rest.1)
      else ([o], c)
  }

  // ----- running the cuts -----

  /** In front of instruction `index` of the cut at `start`, or behind its last one. */
  datatype Position = Position(start: int, index: nat)

  ghost predicate ValidPosition(space: Space, p: Position)
  {
    && StartsCode(space, p.start)
    && p.index <= |space[p.start].instructions|
    && (p.index == |space[p.start].instructions| ==> space[p.start].successors != [])
  }

  function OffsetOf(space: Space, p: Position): int
    requires StartsCode(space, p.start) && p.index <= |space[p.start].instructions|
  {
    p.start + Bytes(space[p.start].instructions[..p.index])
  }

  /** Behind its instructions, a cut that falls through goes on with the next one. */
  function Settle(space: Space, p: Position): Position
    requires StartsCode(space, p.start)
  {
    var c := space[p.start];
    if p.index == |c.instructions| && |c.successors| == 1 && c.successors[0].instructionSize == 0
       && c.successors[0].target.Here?
    then Position(c.successors[0].target.offset, 0) else p
  }

  datatype Next = To(position: Position) | Out(control: Control)

  function Take(t: Target): Next { if t.Here? then To(Position(t.offset, 0)) else Out(Leaves(t)) }

  /** One instruction, or one branch, of the cuts. */
  function GraphStep(space: Space, p: Position, f: Flags): Next
    requires StartsCode(space, p.start) && p.index <= |space[p.start].instructions|
  {
    var c := space[p.start];
    if p.index < |c.instructions| then
      if !c.instructions[p.index].kind.Normal? then Out(Ends)
      else if p.index + 1 == |c.instructions| && c.successors == [] then Out(RunsOff)
      else To(Position(p.start, p.index + 1))
    else if c.successors == [] then Out(RunsOff)
    else if Holds(c.successors[0].condition, f) || |c.successors| == 1 then Take(c.successors[0].target)
    else Take(c.successors[1].target)
  }

  ghost function GraphRun(space: Space, p: Position, fs: seq<Flags>): (seq<int>, Control)
    requires StartsCode(space, p.start) && p.index <= |space[p.start].instructions|
    decreases |fs|
  {
    if fs == [] then ([], At(OffsetOf(space, p)))
    else
      var q := Settle(space, p);
      if !(StartsCode(space, q.start) && q.index <= |space[q.start].instructions|) then ([], At(q.start))
      else
        var next := GraphStep(space, q, fs[0]);
        if next.Out? then ([OffsetOf(space, q)], next.control)
        else if !(StartsCode(space, next.position.start) &&
                  next.position.index <= |space[next.position.start].instructions|)
        then ([OffsetOf(space, q)], At(next.position.start))
        else
          var rest := GraphRun(space, next.position, fs[1..]);
          ([OffsetOf(space, q)] + rest.0, rest.1)
  }

  // ----- they visit the same instructions -----

  lemma {:induction false} BytesUpTo(s: seq<Insn>, i: nat)
    requires i < |s|
    ensures Bytes(s[..i + 1]) == Bytes(s[..i]) + s[i].size
  {
    assert s[..i + 1][..i] == s[..i];
  }

  lemma {:induction false} BytesGrow(s: seq<Insn>, i: nat)
    requires i <= |s|
    ensures Bytes(s[..i]) <= Bytes(s)
    decreases |s| - i
  {
    if i < |s| {
      BytesUpTo(s, i);
      BytesGrow(s, i + 1);
    } else {
      assert s[..i] == s;
    }
  }

  /** Settling stays at the same offset, in front of an instruction or a branch. */
  lemma {:induction false} SettleStays(d: Decoder, codeEnd: int, n: int, space: Space, p: Position)
    requires Decomposed(d, codeEnd, n, space) && ValidPosition(space, p)
    ensures var q := Settle(space, p);
      && ValidPosition(space, q) && OffsetOf(space, q) == OffsetOf(space, p)
      && (q.index == |space[q.start].instructions| ==> space[q.start].successors[0].instructionSize > 0)
  {
    var c := space[p.start];
    assert CutHolds(d, codeEnd, p.start, c) && TargetsStart(space, c);
    assert c.instructions[..|c.instructions|] == c.instructions;
    var q := Settle(space, p);
    if q != p {
      assert c.successors[0].target.Here? && StartsCode(space, c.successors[0].target.offset);
      assert CutHolds(d, codeEnd, q.start, space[q.start]);
      assert space[q.start].instructions[..0] == [];
    }
  }

  /** The code has this instruction of the cut, and goes on as the cut does. */
  ghost predicate RunsInstruction(d: Decoder, codeEnd: int, start: int, c: Cut, i: nat)
    requires c.CodeCut? && i < |c.instructions|
  {
    var o, next := start + Bytes(c.instructions[..i]), start + Bytes(c.instructions[..i + 1]);
    && o in d && d[o] == c.instructions[i] && next == o + d[o].size
    && (d[o].kind.Normal? || EndsControl(d[o].kind))
    && (d[o].kind.Normal? ==> (next == codeEnd <==> i + 1 == |c.instructions| && c.successors == []))
  }

  lemma {:induction false} InnerEndsBefore(d: Decoder, start: int, s: seq<Insn>, i: nat)
    requires ValidDecoder(d) && Lists(d, start, s) && i + 1 < |s|
    ensures Bytes(s[..i + 1]) < Bytes(s)
  {
    BytesUpTo(s, i + 1);
    BytesGrow(s, i + 2);
    assert ListedAt(d, start, s, i + 1);
  }

  lemma {:induction false} InnerIsNormal(d: Decoder, codeEnd: int, start: int, c: Cut, i: nat)
    requires c.CodeCut? && CutHolds(d, codeEnd, start, c) && i + 1 < |c.instructions|
    ensures c.instructions[i].kind.Normal? && Bytes(c.instructions) <= c.size && Lists(d, start, c.instructions)
  {
    assert c.instructions[..|c.instructions| - 1][i] == c.instructions[i];
  }

  lemma {:induction false} InnerInstruction(d: Decoder, codeEnd: int, start: int, c: Cut, i: nat)
    requires ValidDecoder(d) && c.CodeCut? && CutHolds(d, codeEnd, start, c) && start + c.size <= codeEnd
    requires i + 1 < |c.instructions|
    ensures RunsInstruction(d, codeEnd, start, c, i)
  {
    InnerIsNormal(d, codeEnd, start, c, i);
    InnerEndsBefore(d, start, c.instructions, i);
    BytesUpTo(c.instructions, i);
    assert ListedAt(d, start, c.instructions, i);
  }

  lemma {:induction false} LastInstruction(d: Decoder, codeEnd: int, start: int, c: Cut)
    requires ValidDecoder(d) && c.CodeCut? && CutHolds(d, codeEnd, start, c) && start + c.size <= codeEnd
    requires c.instructions != []
    ensures RunsInstruction(d, codeEnd, start, c, |c.instructions| - 1)
  {
    var s := c.instructions;
    BytesUpTo(s, |s| - 1);
    assert s[..|s| - 1 + 1] == s;
    assert ListedAt(d, start, s, |s| - 1);
  }

  lemma {:induction false} CutInstruction(d: Decoder, codeEnd: int, start: int, c: Cut, i: nat)
    requires ValidDecoder(d) && c.CodeCut? && CutHolds(d, codeEnd, start, c) && start + c.size <= codeEnd
    requires i < |c.instructions|
    ensures RunsInstruction(d, codeEnd, start, c, i)
  {
    if i + 1 < |c.instructions| {
      InnerInstruction(d, codeEnd, start, c, i);
    } else {
      LastInstruction(d, codeEnd, start, c);
    }
  }

  /** What a step of the cuts has to do with a step of the code. */
  ghost predicate Matches(space: Space, next: Next, c: Control)
  {
    match next
    case To(p) => ValidPosition(space, p) && c == At(OffsetOf(space, p))
    case Out(control) => c == control && !c.At?
  }

  lemma {:induction false} InstructionMatches(d: Decoder, codeEnd: int, space: Space, p: Position, f: Flags)
    requires StartsCode(space, p.start) && p.index < |space[p.start].instructions|
    requires RunsInstruction(d, codeEnd, p.start, space[p.start], p.index)
    ensures OffsetOf(space, p) in d
    ensures Matches(space, GraphStep(space, p, f), LinearStep(d, codeEnd, OffsetOf(space, p), f))
  {
  }

  /** An instruction within a cut. */
  lemma {:induction false} InstructionStep(d: Decoder, codeEnd: int, n: int, space: Space, p: Position, f: Flags)
    requires Decomposed(d, codeEnd, n, space) && ValidPosition(space, p)
    requires p.index < |space[p.start].instructions|
    ensures OffsetOf(space, p) in d
    ensures Matches(space, GraphStep(space, p, f), LinearStep(d, codeEnd, OffsetOf(space, p), f))
  {
    assert CutHolds(d, codeEnd, p.start, space[p.start]) && InPlace(p.start, space[p.start], codeEnd, codeEnd, n);
    CutInstruction(d, codeEnd, p.start, space[p.start], p.index);
    InstructionMatches(d, codeEnd, space, p, f);
  }

  /** The code has the branch of the cut. */
  ghost predicate RunsBranch(d: Decoder, start: int, c: Cut)
    requires c.CodeCut?
  {
    var e := start + Bytes(c.instructions);
    && e in d && d[e].kind.Branch? && d[e].kind.condition != INVALID_CONDITION
    && c.successors == SuccessorsOf(d[e].kind, d[e].size, e + d[e].size)
  }

  lemma {:induction false} CutBranch(d: Decoder, codeEnd: int, start: int, c: Cut)
    requires c.CodeCut? && CutHolds(d, codeEnd, start, c) && c.successors != [] && c.successors[0].instructionSize > 0
    ensures RunsBranch(d, start, c)
    ensures var e := start + Bytes(c.instructions); e < start + c.size == e + d[e].size
  {
  }

  lemma {:induction false} StartIsPosition(d: Decoder, codeEnd: int, n: int, space: Space, o: int)
    requires Decomposed(d, codeEnd, n, space) && StartsCode(space, o)
    ensures ValidPosition(space, Position(o, 0)) && OffsetOf(space, Position(o, 0)) == o
  {
    assert CutHolds(d, codeEnd, o, space[o]) && InPlace(o, space[o], codeEnd, codeEnd, n);
    assert space[o].instructions[..0] == [];
  }

  /** A jump within the block leads to a position. */
  ghost predicate LeadsToPosition(space: Space, t: Target)
  {
    t.Here? ==> ValidPosition(space, Position(t.offset, 0)) && OffsetOf(space, Position(t.offset, 0)) == t.offset
  }

  lemma {:induction false} BranchMatches(d: Decoder, codeEnd: int, space: Space, p: Position, f: Flags)
    requires StartsCode(space, p.start) && p.index == |space[p.start].instructions|
    requires RunsBranch(d, p.start, space[p.start])
    requires LeadsToPosition(space, space[p.start].successors[0].target)
    requires |space[p.start].successors| == 2 ==> LeadsToPosition(space, space[p.start].successors[1].target)
    ensures OffsetOf(space, p) in d
    ensures Matches(space, GraphStep(space, p, f), LinearStep(d, codeEnd, OffsetOf(space, p), f))
  {
    var c := space[p.start];
    assert c.instructions[..p.index] == c.instructions;
  }

  /** The branch behind a cut. */
  lemma {:induction false} BranchStep(d: Decoder, codeEnd: int, n: int, space: Space, p: Position, f: Flags)
    requires Decomposed(d, codeEnd, n, space) && ValidPosition(space, p)
    requires p.index == |space[p.start].instructions| && space[p.start].successors[0].instructionSize > 0
    ensures OffsetOf(space, p) in d
    ensures Matches(space, GraphStep(space, p, f), LinearStep(d, codeEnd, OffsetOf(space, p), f))
  {
    var c := space[p.start];
    assert CutHolds(d, codeEnd, p.start, c) && TargetsStart(space, c);
    CutBranch(d, codeEnd, p.start, c);
    forall i | 0 <= i < |c.successors| ensures LeadsToPosition(space, c.successors[i].target) {
      if c.successors[i].target.Here? { StartIsPosition(d, codeEnd, n, space, c.successors[i].target.offset); }
    }
    BranchMatches(d, codeEnd, space, p, f);
  }

  /** Following the cuts visits the same instructions as running the code, and ends up in the same place,
      however the branches are decided. */
  lemma {:induction false} RunsAgree(d: Decoder, codeEnd: int, n: int, space: Space, p: Position, fs: seq<Flags>)
    requires Decomposed(d, codeEnd, n, space) && ValidPosition(space, p)
    ensures GraphRun(space, p, fs) == LinearRun(d, codeEnd, OffsetOf(space, p), fs)
    decreases |fs|
  {
    SettleStays(d, codeEnd, n, space, p);
    if fs != [] {
      var q := Settle(space, p);
      if q.index < |space[q.start].instructions| {
        InstructionStep(d, codeEnd, n, space, q, fs[0]);
      } else {
        BranchStep(d, codeEnd, n, space, q, fs[0]);
      }
      var next := GraphStep(space, q, fs[0]);
      if next.To? {
        RunsAgree(d, codeEnd, n, space, next.position, fs[1..]);
      }
    }
  }

  /** Decomposition preserves control flow: from every instruction that starts a cut, in particular the
      first one. */
  lemma {:induction false} DecompositionPreservesControlFlow(d: Decoder, codeEnd: int, n: int, space: Space, o: int,
                                                             fs: seq<Flags>)
    requires Decomposed(d, codeEnd, n, space) && StartsCode(space, o)
    ensures GraphRun(space, Position(o, 0), fs) == LinearRun(d, codeEnd, o, fs)
  {
    StartIsPosition(d, codeEnd, n, space, o);
    RunsAgree(d, codeEnd, n, space, Position(o, 0), fs);
  }

  /** The bytes of a code cut are exactly those of its instructions and of the branch its successors stand
      for. */
  function SuccessorBytes(s: seq<Succ>): nat { if s == [] then 0 else s[0].instructionSize + SuccessorBytes(s[1..]) }

  lemma {:induction false} CutSizeIsExact(d: Decoder, codeEnd: int, start: int, c: Cut)
    requires c.CodeCut? && CutHolds(d, codeEnd, start, c)
    ensures c.size == Bytes(c.instructions) + SuccessorBytes(c.successors)
  {
    var s := c.successors;
    if |s| > 0 {
      assert SuccessorBytes(s) == s[0].instructionSize + SuccessorBytes(s[1..]);
      if |s| == 2 {
        assert s[1..] == [s[1]] && s[1..][1..] == [];
        assert SuccessorBytes(s[1..]) == s[1].instructionSize;
      }
    }
  }

  /** A cut has no successor, an unconditional one, or two with complementary conditions. */
  lemma {:induction false} CutSuccessorsValid(d: Decoder, codeEnd: int, start: int, c: Cut)
    requires c.CodeCut? && CutHolds(d, codeEnd, start, c)
    ensures |c.successors| <= 2
    ensures |c.successors| == 1 ==> c.successors[0].condition == CONDITION_TRUE
    ensures |c.successors| == 2 ==>
      && IsConditionalBranch(c.successors[0].condition)
      && c.successors[0].condition == InvertCondition(c.successors[1].condition)
  {
    var e := start + Bytes(c.instructions);
    if e < start + c.size && IsConditionalBranch(d[e].kind.condition) {
      InversionNegates(d[e].kind.condition, Flags(false, false, false, false, false));
    }
  }

  /** Every byte is in exactly one cut. */
  lemma {:induction false} Covered(space: Space, lo: int, n: int, s: int, o: int)
    requires Tiles(space, lo, lo, n) && s in space && s <= o < n
    ensures exists t :: t in space && t <= o < t + space[t].size
    decreases n - s
  {
    assert InPlace(s, space[s], lo, lo, n);
    if o >= s + space[s].size {
      assert Continues(space, s, lo, n);
      Covered(space, lo, n, s + space[s].size, o);
    }
  }

  lemma {:induction false} CutsPartition(space: Space, lo: int, n: int, o: int)
    requires Tiles(space, lo, lo, n) && 0 <= o < n
    ensures exists t :: t in space && t <= o < t + space[t].size
    ensures forall s, t :: s in space && t in space ==>
      s <= o < s + space[s].size && t <= o < t + space[t].size ==> s == t
  {
    assert 0 in space;
    Covered(space, lo, n, 0, o);
  }

  // ----- making cuts -----

  /** A new code cut at the end of those that are there. */
  lemma {:induction false} AddCode(space: Space, lo: int, hi: int, n: int, c: Cut)
    requires Tiles(space, lo, hi, n) && c.CodeCut? && c.size > 0 && lo + c.size <= hi
    ensures Tiles(space[lo := c], lo + c.size, hi, n) && lo !in space
  {
    var after, end := space[lo := c], lo + c.size;
    CodeContinues(space, lo, hi, n, c, after, end);
    forall s | s in after ensures InPlace(s, after[s], end, hi, n) {
      assert s != lo ==> InPlace(s, space[s], lo, hi, n);
    }
    forall s, t | s in after && t in after && s < t ensures s + after[s].size <= t {
      assert s != lo ==> InPlace(s, space[s], lo, hi, n);
      assert t != lo ==> InPlace(t, space[t], lo, hi, n);
    }
  }

  lemma {:induction false} CodeContinues(space: Space, lo: int, hi: int, n: int, c: Cut, after: Space, end: int)
    requires Tiles(space, lo, hi, n) && lo < hi && after == space[lo := c] && end == lo + c.size
    ensures lo !in space && forall s :: Continues(after, s, end, n)
  {
    forall s | s in space ensures s != lo { assert InPlace(s, space[s], lo, hi, n); }
    forall s ensures Continues(after, s, end, n) {
      assert Continues(space, s, lo, n);
    }
  }

  /** A new data cut in front of those that are there. */
  lemma {:induction false} AddData(space: Space, lo: int, hi: int, n: int, s: int)
    requires Tiles(space, lo, hi, n) && lo <= s < hi
    ensures Tiles(space[s := DataCut(hi - s)], lo, s, n) && s !in space
  {
    forall t | t in space ensures t != s { assert InPlace(t, space[t], lo, hi, n); }
    var after := space[s := DataCut(hi - s)];
    forall t ensures Continues(after, t, lo, n) {
      assert Continues(space, t, lo, n);
    }
  }

  /** The parts of a divided cut lie where it lay. */
  lemma {:induction false} SplitApart(space: Space, codeEnd: int, n: int, s: int, t: int, left: Cut, right: Cut, u: int,
                                      v: int)
    requires Tiles(space, codeEnd, codeEnd, n) && StartsCode(space, s) && left.CodeCut? && right.CodeCut?
    requires s < t < s + space[s].size && left.size == t - s && right.size == space[s].size - left.size
    requires u in space[s := left][t := right] && v in space[s := left][t := right] && u < v
    ensures u + space[s := left][t := right][u].size <= v
  {
    var u' := if u == t then s else u;
    var v' := if v == t then s else v;
    assert InPlace(u', space[u'], codeEnd, codeEnd, n) && InPlace(v', space[v'], codeEnd, codeEnd, n);
    assert u' < v' ==> u' + space[u'].size <= v';
  }

  /** A code cut divided in two. */
  lemma {:induction false} SplitContinues(space: Space, codeEnd: int, n: int, s: int, t: int, left: Cut, right: Cut,
                                          after: Space)
    requires Tiles(space, codeEnd, codeEnd, n) && s in space && s < t < s + space[s].size
    requires left.size == t - s && right.size == space[s].size - left.size && after == space[s := left][t := right]
    ensures t !in space && forall u :: Continues(after, u, codeEnd, n)
  {
    forall u | u in space ensures u != t {
      assert u < s ==> u + space[u].size <= s;
      assert u > s ==> s + space[s].size <= u;
    }
    forall u ensures Continues(after, u, codeEnd, n) {
      assert Continues(space, u, codeEnd, n) && Continues(space, s, codeEnd, n);
    }
  }

  lemma {:induction false} SplitTiles(space: Space, codeEnd: int, n: int, s: int, t: int, left: Cut, right: Cut)
    requires Tiles(space, codeEnd, codeEnd, n) && StartsCode(space, s) && left.CodeCut? && right.CodeCut?
    requires s < t < s + space[s].size && left.size == t - s && right.size == space[s].size - left.size
    ensures Tiles(space[s := left][t := right], codeEnd, codeEnd, n)
  {
    var after := space[s := left][t := right];
    assert InPlace(s, space[s], codeEnd, codeEnd, n);
    forall u | u in after ensures InPlace(u, after[u], codeEnd, codeEnd, n) {
      assert u != s && u != t ==> InPlace(u, space[u], codeEnd, codeEnd, n);
    }
    forall u, v | u in after && v in after && u < v ensures u + after[u].size <= v {
      SplitApart(space, codeEnd, n, s, t, left, right, u, v);
    }
    SplitContinues(space, codeEnd, n, s, t, left, right, after);
  }

  /** The instructions up to position `k`, and those from there on. */
  lemma {:induction false} BytesSplit(s: seq<Insn>, k: nat)
    requires k <= |s|
    ensures Bytes(s) == Bytes(s[..k]) + Bytes(s[k..])
  {
    if k == |s| {
      assert s[..k] == s && s[k..] == [];
    } else {
      var n := |s| - 1;
      BytesSplit(s[..n], k);
      assert s[..n][..k] == s[..k] && s[k..][..n - k] == s[..n][k..];
    }
  }

  lemma {:induction false} TailListed(d: Decoder, start: int, s: seq<Insn>, k: nat, t: int, tail: seq<Insn>, i: nat)
    requires k + i < |s| && t == start + Bytes(s[..k]) && tail == s[k..] && ListedAt(d, start, s, k + i)
    ensures ListedAt(d, t, tail, i)
  {
    BytesSplit(s[..k + i], k);
    assert s[..k + i][..k] == s[..k] && s[..k + i][k..] == tail[..i];
  }

  lemma {:induction false} ListsSplit(d: Decoder, start: int, s: seq<Insn>, k: nat, t: int, tail: seq<Insn>)
    requires Lists(d, start, s) && k <= |s| && t == start + Bytes(s[..k]) && tail == s[k..]
    ensures Lists(d, start, s[..k]) && Lists(d, t, tail) && t + Bytes(tail) == start + Bytes(s)
  {
    forall i | 0 <= i < k ensures ListedAt(d, start, s[..k], i) {
      assert s[..k][..i] == s[..i] && ListedAt(d, start, s, i);
    }
    forall i | 0 <= i < |tail| ensures ListedAt(d, t, tail, i) {
      assert ListedAt(d, start, s, k + i);
      TailListed(d, start, s, k, t, tail, i);
    }
    BytesSplit(s, k);
  }

  lemma {:induction false} WholePrefix(s: seq<Insn>)
    ensures s[..|s|] == s
  {
  }

  // ----- splitting a cut -----

  /** The part of a cut in front of instruction `k`, and the part from there on. */
  function LeftPart(c: Cut, k: nat, t: int, size: nat): Cut
    requires c.CodeCut? && k <= |c.instructions|
  {
    CodeCut(size, c.instructions[..k], Fallthrough(t))
  }

  function RightPart(c: Cut, k: nat, size: nat): Cut
    requires c.CodeCut? && k <= |c.instructions|
  {
    CodeCut(size, c.instructions[k..], c.successors)
  }

  lemma {:induction false} PrefixIsNormal(d: Decoder, codeEnd: int, s: int, c: Cut, k: nat)
    requires c.CodeCut? && CutHolds(d, codeEnd, s, c) && k <= |c.instructions| && Bytes(c.instructions[..k]) < c.size
    ensures AllNormal(c.instructions[..k])
  {
    var m := |c.instructions| - 1;
    if k == |c.instructions| {
      assert c.instructions[..k] == c.instructions;
    } else {
      assert forall i :: 0 <= i < k ==> c.instructions[..k][i] == c.instructions[..m][i];
    }
  }

  /** Splitting at an instruction leaves two cuts that hold their code; the second one has no instructions
      if the split is at the branch itself. */
  lemma {:induction false} LeftHolds(d: Decoder, codeEnd: int, s: int, c: Cut, k: nat, t: int, left: Cut)
    requires c.CodeCut? && CutHolds(d, codeEnd, s, c) && s + c.size <= codeEnd && k <= |c.instructions|
    requires t == s + Bytes(c.instructions[..k]) && s < t < s + c.size && left == LeftPart(c, k, t, t - s)
    ensures CutHolds(d, codeEnd, s, left)
  {
    ListsSplit(d, s, c.instructions, k, t, c.instructions[k..]);
    PrefixIsNormal(d, codeEnd, s, c, k);
  }

  lemma {:induction false} SuffixIsNormal(s: seq<Insn>, k: nat)
    requires k < |s| && AllNormal(s[..|s| - 1])
    ensures AllNormal(s[k..][..|s| - k - 1])
  {
    forall i | 0 <= i < |s| - k - 1 ensures s[k..][i].kind.Normal? { assert s[..|s| - 1][k + i] == s[k..][i]; }
  }

  lemma {:induction false} RightHolds(d: Decoder, codeEnd: int, s: int, c: Cut, k: nat, t: int, right: Cut)
    requires c.CodeCut? && CutHolds(d, codeEnd, s, c) && k <= |c.instructions|
    requires t == s + Bytes(c.instructions[..k]) && s < t < s + c.size && right == RightPart(c, k, s + c.size - t)
    ensures CutHolds(d, codeEnd, t, right)
  {
    var a := c.instructions;
    ListsSplit(d, s, a, k, t, a[k..]);
    if Bytes(a) == c.size {
      WholePrefix(a);
      SuffixIsNormal(a, k);
      assert a[k..][|a| - k - 1] == a[|a| - 1];
    } else {
      assert forall i :: 0 <= i < |a| - k ==> a[k..][i] == a[k + i];
    }
  }

  // ----- instruction boundaries -----

  /** One of the instructions from `first` up to `to` starts at offset `b`. */
  predicate IsBoundary(d: Decoder, first: int, to: int, b: int)
    decreases to - first
  {
    if first < to && first in d && d[first].size > 0 then b == first || IsBoundary(d, first + d[first].size, to, b)
    else false
  }

  /** Offset `b` is in front of instruction `k` of the cut at `s`, or of its branch. */
  predicate IsAt(space: Space, s: int, k: nat, b: int)
  {
    && StartsCode(space, s) && k <= |space[s].instructions|
    && b == s + Bytes(space[s].instructions[..k]) && b < s + space[s].size
  }

  ghost predicate OnBoundary(space: Space, b: int) { exists s, k :: IsAt(space, s, k, b) }

  /** A boundary in the left part. */
  lemma {:induction false} LeftKeepsAt(d: Decoder, c: Cut, s: int, j: nat, t: int, k: nat)
    requires ValidDecoder(d) && c.CodeCut? && Lists(d, s, c.instructions)
    requires k < j <= |c.instructions| && t == s + Bytes(c.instructions[..j])
    ensures c.instructions[..j][..k] == c.instructions[..k] && s + Bytes(c.instructions[..k]) < t
  {
    hide Lists;
    BytesUpTo(c.instructions[..j], k);
    BytesGrow(c.instructions[..j], k + 1);
    assert c.instructions[..j][..k] == c.instructions[..k];
    SizePositive(d, s, c.instructions, k);
  }

  lemma {:induction false} SizePositive(d: Decoder, start: int, s: seq<Insn>, i: nat)
    requires ValidDecoder(d) && Lists(d, start, s) && i < |s|
    ensures s[i].size > 0
  {
    assert ListedAt(d, start, s, i);
  }

  /** A boundary in the right part. */
  lemma {:induction false} RightKeepsAt(s: seq<Insn>, j: nat, k: nat)
    requires j <= k <= |s|
    ensures Bytes(s[..k]) == Bytes(s[..j]) + Bytes(s[j..][..k - j])
  {
    BytesSplit(s[..k], j);
    assert s[..k][..j] == s[..j] && s[..k][j..] == s[j..][..k - j];
  }

  lemma {:induction false} SplitKeepsAt(d: Decoder, space: Space, s: int, j: nat, t: int, u: int, k: nat, b: int)
    requires ValidDecoder(d) && StartsCode(space, s) && Lists(d, s, space[s].instructions)
    requires j <= |space[s].instructions| && t == s + Bytes(space[s].instructions[..j]) && s < t < s + space[s].size
    requires IsAt(space, u, k, b) && t !in space
    ensures var left, right := LeftPart(space[s], j, t, t - s), RightPart(space[s], j, s + space[s].size - t);
      OnBoundary(space[s := left][t := right], b)
  {
    hide Bytes, Lists, ValidDecoder;
    var c := space[s];
    var after := space[s := LeftPart(c, j, t, t - s)][t := RightPart(c, j, s + c.size - t)];
    if u != s {
      assert IsAt(after, u, k, b);
    } else if k < j {
      LeftKeepsAt(d, c, s, j, t, k);
      assert IsAt(after, s, k, b);
    } else {
      RightKeepsAt(c.instructions, j, k);
      assert IsAt(after, t, k - j, b);
    }
  }

  /** A boundary in a cut is in front of one of its instructions. */
  lemma {:induction false} BoundaryInCut(space: Space, codeEnd: int, n: int, s: int, t: int) returns (k: nat)
    requires Tiles(space, codeEnd, codeEnd, n) && OnBoundary(space, t)
    requires s in space && s <= t < s + space[s].size
    ensures IsAt(space, s, k, t)
  {
    var u, j :| IsAt(space, u, j, t);
    assert u == s;
    k := j;
  }
}
