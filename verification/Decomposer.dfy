/** The decomposer: walks the code of a block, cuts it at branches, and splits the cuts at jump targets. */
module Decomposer {
  import opened Conditions
  import opened OrderedMaps
  import opened Decomposition

  /** What the decomposer looks at in a label. */
  datatype LabelKind = DataLabel | DebugEndLabel | OtherLabel

  type Labels = map<int, LabelKind>

  // ----- the code range -----

  /** Code comes first: no data label is behind the block or in front of another label that is not at the end
      of debug information. */
  ghost predicate CodeFirst(labels: Labels, n: int)
  {
    forall k :: k in labels && labels[k].DataLabel? ==>
      k < n && forall m :: m in labels && labels[m].OtherLabel? ==> m < k
  }

  /** `end` is where the first data label is, or the end of the block. */
  ghost predicate IsCodeEnd(labels: Labels, n: int, end: int)
  {
    && end <= n && (end < n ==> end in labels && labels[end].DataLabel?)
    && forall k :: k in labels && labels[k].DataLabel? && k < n ==> end <= k
  }

  /** The offsets of the labels in order. */
  ghost predicate InOrder(labels: Labels, keys: seq<int>)
  {
    Ascending(keys) && (forall k :: k in keys <==> k in labels) && forall j :: 0 <= j < |keys| ==> keys[j] in labels
  }

  /** The labels from position `i` on have been looked at. */
  ghost predicate LabelsSeen(labels: Labels, keys: seq<int>, n: int, i: int, codeEnd: int, sawNonData: bool)
    requires InOrder(labels, keys)
  {
    && 0 <= i <= |keys| && 0 <= codeEnd <= n
    && (sawNonData <==> exists j :: i <= j < |keys| && labels[keys[j]].OtherLabel?)
    && (codeEnd < n ==> exists j :: i <= j < |keys| && keys[j] == codeEnd && labels[keys[j]].DataLabel?)
    && (forall j :: i <= j < |keys| && labels[keys[j]].DataLabel? ==>
          codeEnd <= keys[j] < n && forall m :: j < m < |keys| ==> !labels[keys[m]].OtherLabel?)
  }

  lemma {:induction false} LabelsInOrder(labels: Labels, keys: seq<int>)
    requires Ascending(keys) && forall k :: k in keys <==> k in labels.Keys
    ensures InOrder(labels, keys)
  {
    forall j | 0 <= j < |keys| ensures keys[j] in labels { assert keys[j] in keys; }
  }

  lemma {:induction false} NoneSeen(labels: Labels, keys: seq<int>, n: nat)
    requires InOrder(labels, keys)
    ensures LabelsSeen(labels, keys, n, |keys|, n, false)
  {
  }

  lemma {:induction false} KeyIsLabel(labels: Labels, keys: seq<int>, i: nat)
    requires InOrder(labels, keys) && i < |keys|
    ensures keys[i] in labels
  {
    assert keys[i] in keys;
  }

  lemma {:induction false} DataPastEnd(labels: Labels, n: int, k: int)
    requires k in labels && labels[k].DataLabel? && k >= n
    ensures !CodeFirst(labels, n)
  {
  }

  lemma {:induction false} SeenData(labels: Labels, keys: seq<int>, n: int, i: int, codeEnd: int)
    requires InOrder(labels, keys) && LabelsSeen(labels, keys, n, i, codeEnd, false) && i > 0
    requires 0 <= keys[i - 1] < n && labels[keys[i - 1]].DataLabel?
    ensures keys[i - 1] < codeEnd && LabelsSeen(labels, keys, n, i - 1, keys[i - 1], false)
  {
  }

  lemma {:induction false} SeenOther(labels: Labels, keys: seq<int>, n: int, i: int, codeEnd: int, sawNonData: bool)
    requires InOrder(labels, keys) && LabelsSeen(labels, keys, n, i, codeEnd, sawNonData) && i > 0
    requires !labels[keys[i - 1]].DataLabel?
    ensures LabelsSeen(labels, keys, n, i - 1, codeEnd, sawNonData || labels[keys[i - 1]].OtherLabel?)
  {
    var saw := sawNonData || labels[keys[i - 1]].OtherLabel?;
    if saw {
      if sawNonData {
        var j :| i <= j < |keys| && labels[keys[j]].OtherLabel?;
        assert i - 1 <= j < |keys| && labels[keys[j]].OtherLabel?;
      } else {
        assert i - 1 <= i - 1 < |keys| && labels[keys[i - 1]].OtherLabel?;
      }
    }
  }

  lemma {:induction false} NotCodeFirst(labels: Labels, keys: seq<int>, n: int, i: int, codeEnd: int)
    requires InOrder(labels, keys) && 0 < i && LabelsSeen(labels, keys, n, i, codeEnd, true)
    requires labels[keys[i - 1]].DataLabel?
    ensures !CodeFirst(labels, n)
  {
    var j :| i <= j < |keys| && labels[keys[j]].OtherLabel?;
    assert keys[i - 1] in labels && keys[j] in labels && keys[i - 1] < keys[j];
  }

  lemma {:induction false} IsCodeFirst(labels: Labels, keys: seq<int>, n: int, codeEnd: int, sawNonData: bool)
    requires InOrder(labels, keys) && LabelsSeen(labels, keys, n, 0, codeEnd, sawNonData)
    ensures CodeFirst(labels, n) && IsCodeEnd(labels, n, codeEnd)
  {
    forall k | k in labels && labels[k].DataLabel?
      ensures codeEnd <= k < n && forall m :: m in labels && labels[m].OtherLabel? ==> m < k
    {
      assert k in keys;
      var j :| 0 <= j < |keys| && keys[j] == k;
      forall m | m in labels && labels[m].OtherLabel? ensures m < k {
        assert m in keys;
        var i :| 0 <= i < |keys| && keys[i] == m;
      }
    }
  }

  /** There is a data cut exactly at each data label from `end` on. */
  ghost predicate DataIs(space: Space, labels: Labels, end: int, n: int)
  {
    forall s :: StartsData(space, s) <==> IsDataLabel(labels, s) && end <= s < n
  }

  predicate StartsData(space: Space, s: int) { s in space && space[s].DataCut? }

  predicate IsDataLabel(labels: Labels, k: int) { k in labels && labels[k].DataLabel? }

  /** So far there are data cuts only. */
  ghost predicate DataOnly(space: Space) { forall s :: s in space ==> space[s].DataCut? }

  /** The next data label in front of those that have been seen. */
  lemma {:induction false} DataAdded(labels: Labels, keys: seq<int>, n: int, i: int, codeEnd: int, space: Space)
    requires InOrder(labels, keys) && LabelsSeen(labels, keys, n, i, codeEnd, false) && i > 0
    requires 0 <= keys[i - 1] < codeEnd && labels[keys[i - 1]].DataLabel? && DataIs(space, labels, codeEnd, n)
    ensures DataIs(space[keys[i - 1] := DataCut(codeEnd - keys[i - 1])], labels, keys[i - 1], n)
  {
    var offset := keys[i - 1];
    var after := space[offset := DataCut(codeEnd - offset)];
    forall s ensures StartsData(after, s) <==> IsDataLabel(labels, s) && offset <= s < n {
      assert StartsData(space, s) <==> IsDataLabel(labels, s) && codeEnd <= s < n;
      if IsDataLabel(labels, s) && offset < s < n {
        assert s in keys;
        var j :| 0 <= j < |keys| && keys[j] == s;
        assert i <= j;
      }
    }
  }

  /** In front of the first cut. */
  lemma {:induction false} NothingCut(labels: Labels, n: nat)
    ensures Tiles(map[], 0, n, n) && DataOnly(map[]) && DataIs(map[], labels, n, n)
  {
  }

  /** A code cut does not touch the data. */
  lemma {:induction false} DataStays(space: Space, labels: Labels, end: int, n: int, s: int, c: Cut)
    requires DataIs(space, labels, end, n) && c.CodeCut? && !StartsData(space, s)
    ensures DataIs(space[s := c], labels, end, n)
  {
    forall t ensures StartsData(space[s := c], t) <==> IsDataLabel(labels, t) && end <= t < n {
      assert StartsData(space, t) <==> IsDataLabel(labels, t) && end <= t < n;
    }
  }

  // ----- the state while instructions are parsed -----

  /** The code up to `start` has been cut; the instructions from there to `o` are in `cur`. */
  ghost predicate Parsed(d: Decoder, codeEnd: int, n: int, space: Space, start: int, cur: seq<Insn>, o: int)
  {
    && ValidDecoder(d) && Tiles(space, start, codeEnd, n)
    && Lists(d, start, cur) && AllNormal(cur) && start + Bytes(cur) == o <= codeEnd
    && (forall s :: s in space ==> CutHolds(d, codeEnd, s, space[s]))
  }

  /** Every jump within the block is recorded. */
  ghost predicate Recorded(space: Space, targets: set<int>)
  {
    forall s :: s in space ==> CutRecorded(space[s], targets)
  }

  ghost predicate CutRecorded(c: Cut, targets: set<int>)
  {
    c.CodeCut? ==> forall i :: 0 <= i < |c.successors| && c.successors[i].target.Here? ==>
      c.successors[i].target.offset in targets
  }

  /** The instructions that have been met are in front of an instruction of a cut, or of one in `cur`. */
  ghost predicate BoundariesMet(d: Decoder, codeEnd: int, space: Space, start: int, cur: seq<Insn>, o: int)
  {
    forall b :: IsBoundary(d, 0, codeEnd, b) ==>
      OnBoundary(space, b) || OnList(start, cur, b) || IsBoundary(d, o, codeEnd, b)
  }

  predicate InFrontOf(start: int, cur: seq<Insn>, k: nat, b: int) { k < |cur| && b == start + Bytes(cur[..k]) }

  ghost predicate OnList(start: int, cur: seq<Insn>, b: int) { exists k: nat :: InFrontOf(start, cur, k, b) }

  /** Instructions that the decomposer can represent. */
  predicate Supported(k: Kind, n: int)
  {
    && !k.SystemCall?
    && (k.Branch? ==> k.condition != INVALID_CONDITION && CanLead(k, n))
  }

  /** The destination of a branch can be represented: a reference leads to it directly, or it is in the block. */
  predicate CanLead(k: Kind, n: int)
    requires k.Branch?
  {
    k.link.Direct? || (k.link.NoLink? && k.target.Here? && 0 <= k.target.offset < n)
  }

  /** The bytes from `o` to `end` are whole instructions that can be represented. */
  predicate Parses(d: Decoder, o: int, end: int, n: int)
    decreases end - o
  {
    if o >= end then o == end
    else o in d && d[o].size > 0 && o + d[o].size <= end && Supported(d[o].kind, n) && Parses(d, o + d[o].size, end, n)
  }

  // ----- one instruction -----

  /** Decoding from `o` on meets a branch whose condition cannot be represented. */
  predicate MeetsUnsupported(d: Decoder, o: int, end: int, n: int)
    requires ValidDecoder(d)
    decreases end - o
  {
    o < end && o in d && o + d[o].size <= end &&
    if Supported(d[o].kind, n) then MeetsUnsupported(d, o + d[o].size, end, n)
    else d[o].kind.Branch? && d[o].kind.condition == INVALID_CONDITION
  }

  function Extended(space: Space, start: int, cur: seq<Insn>, succs: seq<Succ>, next: int): Space
    requires start <= next
  {
    space[start := CodeCut(next - start, cur, succs)]
  }

  lemma {:induction false} OneMore(d: Decoder, start: int, cur: seq<Insn>, o: int)
    requires Lists(d, start, cur) && start + Bytes(cur) == o && o in d
    ensures Lists(d, start, cur + [d[o]]) && Bytes(cur + [d[o]]) == Bytes(cur) + d[o].size
  {
    var more := cur + [d[o]];
    assert more[..|cur|] == cur;
    forall i | 0 <= i < |more| ensures ListedAt(d, start, more, i) {
      if i < |cur| { assert more[..i] == cur[..i] && ListedAt(d, start, cur, i); }
    }
  }

  lemma {:induction false} ParsedNormal(d: Decoder, codeEnd: int, n: int, space: Space, start: int, cur: seq<Insn>,
                                        o: int)
    requires Parsed(d, codeEnd, n, space, start, cur, o) && o in d && o + d[o].size <= codeEnd && d[o].kind.Normal?
    ensures Parsed(d, codeEnd, n, space, start, cur + [d[o]], o + d[o].size)
  {
    OneMore(d, start, cur, o);
  }

  lemma {:induction false} CutAdded(d: Decoder, codeEnd: int, n: int, space: Space, start: int, c: Cut, next: int)
    requires ValidDecoder(d) && Tiles(space, start, codeEnd, n) && c.CodeCut? && c.size > 0
    requires next == start + c.size <= codeEnd && CutHolds(d, codeEnd, start, c)
    requires forall s :: s in space ==> CutHolds(d, codeEnd, s, space[s])
    ensures Parsed(d, codeEnd, n, space[start := c], next, [], next)
  {
    AddCode(space, start, codeEnd, n, c);
  }

  lemma {:induction false} EndHolds(d: Decoder, codeEnd: int, start: int, cur: seq<Insn>, o: int)
    requires ValidDecoder(d) && Lists(d, start, cur) && AllNormal(cur) && start + Bytes(cur) == o && o in d
    requires EndsControl(d[o].kind)
    ensures CutHolds(d, codeEnd, start, CodeCut(o + d[o].size - start, cur + [d[o]], []))
  {
    OneMore(d, start, cur, o);
    assert (cur + [d[o]])[..|cur|] == cur;
  }

  lemma {:induction false} ParsedEnd(d: Decoder, codeEnd: int, n: int, space: Space, start: int, cur: seq<Insn>, o: int)
    requires Parsed(d, codeEnd, n, space, start, cur, o) && o in d && o + d[o].size <= codeEnd && EndsControl(d[o].kind)
    ensures var next := o + d[o].size;
      Parsed(d, codeEnd, n, Extended(space, start, cur + [d[o]], [], next), next, [], next)
  {
    EndHolds(d, codeEnd, start, cur, o);
    CutAdded(d, codeEnd, n, space, start, CodeCut(o + d[o].size - start, cur + [d[o]], []), o + d[o].size);
  }

  lemma {:induction false} ParsedBranch(d: Decoder, codeEnd: int, n: int, space: Space, start: int, cur: seq<Insn>,
                                        o: int)
    requires Parsed(d, codeEnd, n, space, start, cur, o) && o in d && o + d[o].size <= codeEnd
    requires d[o].kind.Branch? && d[o].kind.condition != INVALID_CONDITION
    ensures var next := o + d[o].size;
      Parsed(d, codeEnd, n, Extended(space, start, cur, SuccessorsOf(d[o].kind, d[o].size, next), next), next, [], next)
  {
    hide Tiles;
    var next := o + d[o].size;
    var c := CodeCut(next - start, cur, SuccessorsOf(d[o].kind, d[o].size, next));
    assert CutHolds(d, codeEnd, start, c);
    hide CutHolds, Lists, Bytes;
    CutAdded(d, codeEnd, n, space, start, c, next);
  }

  /** Code that does not end with a branch or a return is closed at the end of the code. */
  lemma {:induction false} ParsedRest(d: Decoder, codeEnd: int, n: int, space: Space, start: int, cur: seq<Insn>)
    requires Parsed(d, codeEnd, n, space, start, cur, codeEnd) && start < codeEnd
    ensures Parsed(d, codeEnd, n, Extended(space, start, cur, [], codeEnd), codeEnd, [], codeEnd)
  {
    CutAdded(d, codeEnd, n, space, start, CodeCut(codeEnd - start, cur, []), codeEnd);
  }

  // ----- what is recorded -----

  lemma {:induction false} RecordedMore(space: Space, targets: set<int>, start: int, c: Cut, more: set<int>)
    requires Recorded(space, targets) && targets <= more && CutRecorded(c, more)
    ensures Recorded(space[start := c], more)
  {
    forall s | s in space ensures CutRecorded(space[s], more) { assert CutRecorded(space[s], targets); }
  }

  // ----- the boundaries -----

  lemma {:induction false} MetNormal(d: Decoder, codeEnd: int, space: Space, start: int, cur: seq<Insn>, o: int)
    requires BoundariesMet(d, codeEnd, space, start, cur, o) && o in d && start + Bytes(cur) == o
    ensures BoundariesMet(d, codeEnd, space, start, cur + [d[o]], o + d[o].size)
  {
    var more := cur + [d[o]];
    assert more[..|cur|] == cur;
    forall b | IsBoundary(d, 0, codeEnd, b)
      ensures OnBoundary(space, b) || OnList(start, more, b) || IsBoundary(d, o + d[o].size, codeEnd, b)
    {
      if OnList(start, cur, b) {
        var k: nat :| InFrontOf(start, cur, k, b);
        assert more[..k] == cur[..k];
        assert InFrontOf(start, more, k, b);
      } else if b == o {
        assert InFrontOf(start, more, |cur|, b);
      }
    }
  }

  lemma {:induction false} PrefixShorter(d: Decoder, start: int, s: seq<Insn>, k: nat)
    requires ValidDecoder(d) && Lists(d, start, s) && k < |s|
    ensures Bytes(s[..k]) < Bytes(s)
  {
    BytesUpTo(s, k);
    BytesGrow(s, k + 1);
    assert ListedAt(d, start, s, k);
  }

  lemma {:induction false} StaysOnBoundary(space: Space, start: int, c: Cut, b: int)
    requires OnBoundary(space, b) && start !in space
    ensures OnBoundary(space[start := c], b)
  {
    var s, k :| IsAt(space, s, k, b);
    assert IsAt(space[start := c], s, k, b);
  }

  lemma {:induction false} ListBecomesCut(d: Decoder, space: Space, start: int, cur: seq<Insn>, succs: seq<Succ>,
                                          next: int, b: int)
    requires ValidDecoder(d) && Lists(d, start, cur) && start + Bytes(cur) <= next
    requires OnList(start, cur, b)
    ensures OnBoundary(Extended(space, start, cur, succs, next), b)
  {
    var k: nat :| InFrontOf(start, cur, k, b);
    PrefixShorter(d, start, cur, k);
    assert IsAt(Extended(space, start, cur, succs, next), start, k, b);
  }

  /** A cut whose instructions end where it does. */
  lemma {:induction false} MetClose(d: Decoder, codeEnd: int, space: Space, start: int, cur: seq<Insn>,
                                    succs: seq<Succ>, o: int)
    requires BoundariesMet(d, codeEnd, space, start, cur, o) && ValidDecoder(d) && Lists(d, start, cur)
    requires start + Bytes(cur) == o && start !in space
    ensures BoundariesMet(d, codeEnd, Extended(space, start, cur, succs, o), o, [], o)
  {
    forall b | IsBoundary(d, 0, codeEnd, b)
      ensures OnBoundary(Extended(space, start, cur, succs, o), b) || OnList(o, [], b) || IsBoundary(d, o, codeEnd, b)
    {
      if OnBoundary(space, b) {
        StaysOnBoundary(space, start, CodeCut(o - start, cur, succs), b);
      } else if OnList(start, cur, b) {
        ListBecomesCut(d, space, start, cur, succs, o, b);
      }
    }
  }

  /** A cut that has a branch behind its instructions. */
  lemma {:induction false} MetBranch(d: Decoder, codeEnd: int, space: Space, start: int, cur: seq<Insn>,
                                     succs: seq<Succ>, o: int, next: int)
    requires BoundariesMet(d, codeEnd, space, start, cur, o) && ValidDecoder(d) && Lists(d, start, cur)
    requires start + Bytes(cur) == o && start !in space && o in d && next == o + d[o].size
    ensures BoundariesMet(d, codeEnd, Extended(space, start, cur, succs, next), next, [], next)
  {
    var after := Extended(space, start, cur, succs, next);
    forall b | IsBoundary(d, 0, codeEnd, b)
      ensures OnBoundary(after, b) || OnList(next, [], b) || IsBoundary(d, next, codeEnd, b)
    {
      if OnBoundary(space, b) {
        StaysOnBoundary(space, start, CodeCut(next - start, cur, succs), b);
      } else if OnList(start, cur, b) {
        ListBecomesCut(d, space, start, cur, succs, next, b);
      } else if b == o {
        assert cur[..|cur|] == cur;
        assert IsAt(after, start, |cur|, b);
      }
    }
  }

  lemma {:induction false} NotCutYet(space: Space, lo: int, hi: int, n: int)
    requires Tiles(space, lo, hi, n) && lo < hi
    ensures lo !in space
  {
    forall s | s in space ensures s != lo { assert InPlace(s, space[s], lo, hi, n); }
  }

  /** Boundaries follow each other. */
  lemma {:induction false} NextBoundary(d: Decoder, first: int, codeEnd: int, b: int)
    requires IsBoundary(d, first, codeEnd, b) && b in d && d[b].size > 0 && b + d[b].size < codeEnd
    requires b + d[b].size in d && d[b + d[b].size].size > 0
    ensures IsBoundary(d, first, codeEnd, b + d[b].size)
    decreases codeEnd - first
  {
    if b != first {
      NextBoundary(d, first + d[first].size, codeEnd, b);
    }
  }

  // ----- jump targets -----

  /** Jump targets lie on instruction boundaries inside the code range, and so does what follows a
      conditional branch. */
  ghost predicate JumpsOnBoundaries(d: Decoder, codeEnd: int, bases: set<int>)
  {
    && (forall b :: b in bases && b < codeEnd ==> IsBoundary(d, 0, codeEnd, b))
    && (forall o :: IsBoundary(d, 0, codeEnd, o) && o in d && d[o].kind.Branch? ==> BranchOnBoundaries(d, codeEnd, o))
  }

  predicate BranchOnBoundaries(d: Decoder, codeEnd: int, o: int)
    requires o in d && d[o].kind.Branch?
  {
    && (d[o].kind.target.Here? ==> IsBoundary(d, 0, codeEnd, d[o].kind.target.offset))
    && (IsConditionalBranch(d[o].kind.condition) ==> IsBoundary(d, 0, codeEnd, o + d[o].size))
  }

  // ----- the whole state between two instructions -----

  /** A branch at `p` goes to `t`, or falls through to it. */
  predicate BranchedFrom(d: Decoder, codeEnd: int, p: int, t: int)
  {
    IsBoundary(d, 0, codeEnd, p) && p in d && d[p].kind.Branch? && t in BranchTargets(d[p].kind, p + d[p].size)
  }

  /** A reference, or a branch that is not among those from `o` on, leads to `t`. */
  ghost predicate IsTarget(d: Decoder, codeEnd: int, bases: set<int>, o: int, t: int)
  {
    (t in bases && t < codeEnd) || exists p :: BranchedFrom(d, codeEnd, p, t) && !IsBoundary(d, o, codeEnd, p)
  }

  /** The jump targets are those of the references and of the branches in front of `o`. */
  ghost predicate TargetsMet(d: Decoder, codeEnd: int, bases: set<int>, targets: set<int>, o: int)
  {
    forall t :: t in targets <==> IsTarget(d, codeEnd, bases, o, t)
  }

  lemma {:induction false} BoundaryAtLeast(d: Decoder, first: int, codeEnd: int, b: int)
    requires IsBoundary(d, first, codeEnd, b)
    ensures first <= b < codeEnd
    decreases codeEnd - first
  {
    if b != first { BoundaryAtLeast(d, first + d[first].size, codeEnd, b); }
  }

  /** Which boundaries are left behind with an instruction. */
  lemma {:induction false} BoundariesBehind(d: Decoder, codeEnd: int, o: int, p: int)
    requires ValidDecoder(d) && o in d && o < codeEnd
    ensures IsBoundary(d, o, codeEnd, p) <==> p == o || IsBoundary(d, o + d[o].size, codeEnd, p)
    ensures !IsBoundary(d, o + d[o].size, codeEnd, o)
  {
    if IsBoundary(d, o + d[o].size, codeEnd, o) { BoundaryAtLeast(d, o + d[o].size, codeEnd, o); }
  }

  /** Any instruction but a branch leaves the targets as they are. */
  lemma {:induction false} SameTargets(d: Decoder, codeEnd: int, bases: set<int>, targets: set<int>, o: int)
    requires TargetsMet(d, codeEnd, bases, targets, o) && ValidDecoder(d) && o in d && o < codeEnd && !d[o].kind.Branch?
    ensures TargetsMet(d, codeEnd, bases, targets, o + d[o].size)
  {
    hide IsBoundary;
    forall t ensures t in targets <==> IsTarget(d, codeEnd, bases, o + d[o].size, t) {
      assert t in targets <==> IsTarget(d, codeEnd, bases, o, t);
      forall p ensures BranchedFrom(d, codeEnd, p, t) ==>
        (IsBoundary(d, o, codeEnd, p) <==> IsBoundary(d, o + d[o].size, codeEnd, p))
      {
        BoundariesBehind(d, codeEnd, o, p);
      }
    }
  }

  /** A branch adds the targets that it records. */
  lemma {:induction false} MoreTargets(d: Decoder, codeEnd: int, bases: set<int>, targets: set<int>, o: int,
                                       more: set<int>)
    requires TargetsMet(d, codeEnd, bases, targets, o) && ValidDecoder(d) && o in d && o < codeEnd && d[o].kind.Branch?
    requires IsBoundary(d, 0, codeEnd, o) && more == targets + BranchTargets(d[o].kind, o + d[o].size)
    ensures TargetsMet(d, codeEnd, bases, more, o + d[o].size)
  {
    hide IsBoundary;
    var next := o + d[o].size;
    forall t ensures t in more <==> IsTarget(d, codeEnd, bases, next, t) {
      assert t in targets <==> IsTarget(d, codeEnd, bases, o, t);
      forall p ensures IsBoundary(d, o, codeEnd, p) <==> p == o || IsBoundary(d, next, codeEnd, p) {
        BoundariesBehind(d, codeEnd, o, p);
      }
      BoundariesBehind(d, codeEnd, o, o);
      if t in BranchTargets(d[o].kind, next) {
        assert BranchedFrom(d, codeEnd, o, t) && !IsBoundary(d, next, codeEnd, o);
      }
    }
  }

  /** A reference to the code, or a branch in it, leads to `t`. */
  ghost predicate JumpTarget(d: Decoder, codeEnd: int, bases: set<int>, t: int)
  {
    (t in bases && t < codeEnd) || exists p :: BranchedFrom(d, codeEnd, p, t)
  }

  lemma {:induction false} AllTargetsMet(d: Decoder, codeEnd: int, bases: set<int>, targets: set<int>)
    requires TargetsMet(d, codeEnd, bases, targets, codeEnd)
    ensures forall t :: t in targets <==> JumpTarget(d, codeEnd, bases, t)
  {
    hide BranchedFrom;
    forall t ensures t in targets <==> JumpTarget(d, codeEnd, bases, t) {
      assert t in targets <==> IsTarget(d, codeEnd, bases, codeEnd, t);
      forall p ensures !IsBoundary(d, codeEnd, codeEnd, p) {}
    }
  }

  /** All targets are on boundaries if jumps are. */
  lemma {:induction false} TargetsOnBoundaries(d: Decoder, codeEnd: int, bases: set<int>, targets: set<int>)
    requires JumpsOnBoundaries(d, codeEnd, bases) && forall t :: t in targets ==> JumpTarget(d, codeEnd, bases, t)
    ensures forall t :: t in targets ==> IsBoundary(d, 0, codeEnd, t)
  {
    hide IsBoundary, BranchedFrom, BranchOnBoundaries;
    forall t | t in targets ensures IsBoundary(d, 0, codeEnd, t) {
      assert JumpTarget(d, codeEnd, bases, t);
      if !(t in bases && t < codeEnd) {
        var p :| BranchedFrom(d, codeEnd, p, t);
        BranchesOnBoundary(d, codeEnd, bases, p, t);
      }
    }
  }

  lemma {:induction false} BranchesOnBoundary(d: Decoder, codeEnd: int, bases: set<int>, p: int, t: int)
    requires JumpsOnBoundaries(d, codeEnd, bases) && BranchedFrom(d, codeEnd, p, t)
    ensures IsBoundary(d, 0, codeEnd, t)
  {
    hide IsBoundary;
    assert BranchOnBoundaries(d, codeEnd, p);
  }

  // ----- why a cut starts -----

  /** The instruction at `p` ends a basic block, and the next one is at `s`. */
  predicate EndsAt(d: Decoder, codeEnd: int, p: int, s: int)
  {
    IsBoundary(d, 0, codeEnd, p) && p in d && (EndsControl(d[p].kind) || d[p].kind.Branch?) && p + d[p].size == s
  }

  /** Code is cut at its start, at jump targets and behind what ends a basic block. */
  ghost predicate HasReason(d: Decoder, codeEnd: int, targets: set<int>, s: int)
  {
    s == 0 || s in targets || exists p :: EndsAt(d, codeEnd, p, s)
  }

  /** Every code cut has a reason, and so has the one that comes next. */
  ghost predicate Reasoned(d: Decoder, codeEnd: int, space: Space, start: int, targets: set<int>)
  {
    && (forall s :: StartsCode(space, s) ==> HasReason(d, codeEnd, targets, s))
    && (start < codeEnd ==> HasReason(d, codeEnd, targets, start))
  }

  lemma {:induction false} ReasonedMore(d: Decoder, codeEnd: int, space: Space, start: int, targets: set<int>, c: Cut,
                                        next: int, more: set<int>)
    requires Reasoned(d, codeEnd, space, start, targets) && targets <= more && start < codeEnd
    requires next < codeEnd ==> HasReason(d, codeEnd, more, next)
    ensures Reasoned(d, codeEnd, space[start := c], next, more)
  {
    hide EndsAt;
    var after := space[start := c];
    forall s | StartsCode(after, s) ensures HasReason(d, codeEnd, more, s) {
      if s != start { assert StartsCode(space, s); }
      assert HasReason(d, codeEnd, targets, s);
    }
  }

  /** Everything in front of `o` has been handled. */
  ghost predicate WalkState(d: Decoder, codeEnd: int, n: int, bases: set<int>, space: Space, start: int, cur: seq<Insn>,
                            targets: set<int>, o: int)
  {
    && Parsed(d, codeEnd, n, space, start, cur, o)
    && Recorded(space, targets)
    && BoundariesMet(d, codeEnd, space, start, cur, o)
    && (o < codeEnd && o in d ==> IsBoundary(d, 0, codeEnd, o))
    && TargetsMet(d, codeEnd, bases, targets, o)
    && Reasoned(d, codeEnd, space, start, targets)
  }

  /** The next instruction is on a boundary if this one is. */
  lemma {:induction false} Onward(d: Decoder, codeEnd: int, o: int)
    requires ValidDecoder(d) && o in d && o + d[o].size <= codeEnd && IsBoundary(d, 0, codeEnd, o)
    ensures o + d[o].size < codeEnd && o + d[o].size in d ==> IsBoundary(d, 0, codeEnd, o + d[o].size)
  {
    if o + d[o].size < codeEnd && o + d[o].size in d {
      NextBoundary(d, 0, codeEnd, o);
    }
  }

  lemma {:induction false} WalkNormal(d: Decoder, codeEnd: int, n: int, bases: set<int>, space: Space, start: int,
                                      cur: seq<Insn>, targets: set<int>, o: int)
    requires WalkState(d, codeEnd, n, bases, space, start, cur, targets, o)
    requires o in d && o + d[o].size <= codeEnd && d[o].kind.Normal?
    ensures WalkState(d, codeEnd, n, bases, space, start, cur + [d[o]], targets, o + d[o].size)
  {
    hide Tiles, CutHolds, BoundariesMet, Recorded, TargetsMet, Reasoned, IsBoundary, Lists, Bytes;
    Onward(d, codeEnd, o);
    MetNormal(d, codeEnd, space, start, cur, o);
    ParsedNormal(d, codeEnd, n, space, start, cur, o);
    SameTargets(d, codeEnd, bases, targets, o);
  }

  lemma {:induction false} WalkEnd(d: Decoder, codeEnd: int, n: int, bases: set<int>, space: Space, start: int,
                                   cur: seq<Insn>, targets: set<int>, o: int, next: int, after: Space)
    requires WalkState(d, codeEnd, n, bases, space, start, cur, targets, o)
    requires o in d && next == o + d[o].size <= codeEnd && EndsControl(d[o].kind)
    requires after == Extended(space, start, cur + [d[o]], [], next)
    ensures WalkState(d, codeEnd, n, bases, after, next, [], targets, next)
  {
    hide Tiles, CutHolds, BoundariesMet, Recorded, TargetsMet, Reasoned, IsBoundary, Lists, Bytes;
    Onward(d, codeEnd, o);
    MetNormal(d, codeEnd, space, start, cur, o);
    OneMore(d, start, cur, o);
    NotCutYet(space, start, codeEnd, n);
    MetClose(d, codeEnd, space, start, cur + [d[o]], [], next);
    ParsedEnd(d, codeEnd, n, space, start, cur, o);
    RecordedMore(space, targets, start, CodeCut(next - start, cur + [d[o]], []), targets);
    SameTargets(d, codeEnd, bases, targets, o);
    assert next < codeEnd ==> EndsAt(d, codeEnd, o, next);
    ReasonedMore(d, codeEnd, space, start, targets, CodeCut(next - start, cur + [d[o]], []), next, targets);
  }

  /** The targets that handling a branch records. */
  function BranchTargets(k: Kind, next: int): set<int>
    requires k.Branch?
  {
    (if k.target.Here? then {k.target.offset} else {}) + (if IsConditionalBranch(k.condition) then {next} else {})
  }

  lemma {:induction false} WalkBranch(d: Decoder, codeEnd: int, n: int, bases: set<int>, space: Space, start: int,
                                      cur: seq<Insn>, targets: set<int>, o: int, next: int, succs: seq<Succ>,
                                      after: Space, more: set<int>)
    requires WalkState(d, codeEnd, n, bases, space, start, cur, targets, o)
    requires o in d && next == o + d[o].size <= codeEnd && d[o].kind.Branch? && d[o].kind.condition != INVALID_CONDITION
    requires succs == SuccessorsOf(d[o].kind, d[o].size, next) && after == Extended(space, start, cur, succs, next)
    requires more == targets + BranchTargets(d[o].kind, next)
    ensures WalkState(d, codeEnd, n, bases, after, next, [], more, next)
  {
    hide Tiles, CutHolds, BoundariesMet, Recorded, TargetsMet, Reasoned, IsBoundary, Lists, Bytes;
    Onward(d, codeEnd, o);
    NotCutYet(space, start, codeEnd, n);
    MetBranch(d, codeEnd, space, start, cur, succs, o, next);
    ParsedBranch(d, codeEnd, n, space, start, cur, o);
    RecordedMore(space, targets, start, CodeCut(next - start, cur, succs), more);
    MoreTargets(d, codeEnd, bases, targets, o, more);
    assert next < codeEnd ==> EndsAt(d, codeEnd, o, next);
    ReasonedMore(d, codeEnd, space, start, targets, CodeCut(next - start, cur, succs), next, more);
  }

  lemma {:induction false} WalkRest(d: Decoder, codeEnd: int, n: int, bases: set<int>, space: Space, start: int,
                                    cur: seq<Insn>, targets: set<int>, after: Space)
    requires WalkState(d, codeEnd, n, bases, space, start, cur, targets, codeEnd) && start < codeEnd
    requires after == Extended(space, start, cur, [], codeEnd)
    ensures WalkState(d, codeEnd, n, bases, after, codeEnd, [], targets, codeEnd)
  {
    NotCutYet(space, start, codeEnd, n);
    MetClose(d, codeEnd, space, start, cur, [], codeEnd);
    ParsedRest(d, codeEnd, n, space, start, cur);
    RecordedMore(space, targets, start, CodeCut(codeEnd - start, cur, []), targets);
    ReasonedMore(d, codeEnd, space, start, targets, CodeCut(codeEnd - start, cur, []), codeEnd, targets);
  }

  /** The state before instructions are parsed. */
  lemma {:induction false} WalkBegins(d: Decoder, codeEnd: int, n: int, bases: set<int>, space: Space,
                                      targets: set<int>)
    requires ValidDecoder(d) && Tiles(space, 0, codeEnd, n) && DataOnly(space)
    requires targets == set b | b in bases && b < codeEnd
    ensures WalkState(d, codeEnd, n, bases, space, 0, [], targets, 0)
  {
  }

  // ----- splitting -----

  /** All cuts have been made, and hold their code; those at some of the targets have been split. */
  ghost predicate SplitState(d: Decoder, codeEnd: int, n: int, space: Space, targets: set<int>)
  {
    && ValidDecoder(d) && Tiles(space, codeEnd, codeEnd, n)
    && (forall s :: s in space ==> CutHolds(d, codeEnd, s, space[s]))
    && Recorded(space, targets)
    && (forall b :: IsBoundary(d, 0, codeEnd, b) ==> OnBoundary(space, b))
    && Reasoned(d, codeEnd, space, codeEnd, targets)
  }

  lemma {:induction false} WalkEnds(d: Decoder, codeEnd: int, n: int, bases: set<int>, space: Space, targets: set<int>)
    requires WalkState(d, codeEnd, n, bases, space, codeEnd, [], targets, codeEnd)
    ensures SplitState(d, codeEnd, n, space, targets)
    ensures forall t :: t in targets <==> JumpTarget(d, codeEnd, bases, t)
  {
    forall b | IsBoundary(d, 0, codeEnd, b) ensures OnBoundary(space, b) {
      assert !OnList(codeEnd, [], b);
    }
    AllTargetsMet(d, codeEnd, bases, targets);
  }

  function Divided(space: Space, s: int, k: nat, t: int): Space
    requires StartsCode(space, s) && k <= |space[s].instructions| && s < t < s + space[s].size
  {
    space[s := LeftPart(space[s], k, t, t - s)][t := RightPart(space[s], k, s + space[s].size - t)]
  }

  lemma {:induction false} TargetFree(space: Space, codeEnd: int, n: int, s: int, t: int)
    requires Tiles(space, codeEnd, codeEnd, n) && s in space && s < t < s + space[s].size
    ensures t !in space
  {
  }

  lemma {:induction false} DividedHolds(d: Decoder, codeEnd: int, n: int, space: Space, s: int, k: nat, t: int,
                                        after: Space)
    requires ValidDecoder(d) && Tiles(space, codeEnd, codeEnd, n) && StartsCode(space, s)
    requires forall u :: u in space ==> CutHolds(d, codeEnd, u, space[u])
    requires IsAt(space, s, k, t) && s < t && after == Divided(space, s, k, t)
    ensures Tiles(after, codeEnd, codeEnd, n) && forall u :: u in after ==> CutHolds(d, codeEnd, u, after[u])
  {
    var c := space[s];
    assert InPlace(s, c, codeEnd, codeEnd, n) && CutHolds(d, codeEnd, s, c);
    hide CutHolds, Tiles;
    SplitTiles(space, codeEnd, n, s, t, LeftPart(c, k, t, t - s), RightPart(c, k, s + c.size - t));
    LeftHolds(d, codeEnd, s, c, k, t, LeftPart(c, k, t, t - s));
    RightHolds(d, codeEnd, s, c, k, t, RightPart(c, k, s + c.size - t));
  }

  lemma {:induction false} DividedRecorded(space: Space, targets: set<int>, s: int, k: nat, t: int)
    requires Recorded(space, targets) && t in targets && StartsCode(space, s) && k <= |space[s].instructions|
    requires s < t < s + space[s].size
    ensures Recorded(Divided(space, s, k, t), targets)
  {
    assert CutRecorded(space[s], targets);
  }

  lemma {:induction false} DividedReasoned(d: Decoder, codeEnd: int, space: Space, targets: set<int>, s: int, k: nat,
                                           t: int)
    requires Reasoned(d, codeEnd, space, codeEnd, targets) && t in targets && StartsCode(space, s)
    requires k <= |space[s].instructions| && s < t < s + space[s].size
    ensures Reasoned(d, codeEnd, Divided(space, s, k, t), codeEnd, targets)
  {
    hide EndsAt;
  }

  /** Splitting one cut. */
  lemma {:induction false} SplitNext(d: Decoder, codeEnd: int, n: int, space: Space, targets: set<int>, s: int,
                                     k: nat, t: int, after: Space)
    requires SplitState(d, codeEnd, n, space, targets) && t in targets && IsAt(space, s, k, t) && s < t
    requires after == Divided(space, s, k, t)
    ensures SplitState(d, codeEnd, n, after, targets) && StartsCode(after, t)
    ensures forall u :: StartsCode(space, u) ==> StartsCode(after, u)
  {
    DividedHolds(d, codeEnd, n, space, s, k, t, after);
    DividedRecorded(space, targets, s, k, t);
    TargetFree(space, codeEnd, n, s, t);
    DividedReasoned(d, codeEnd, space, targets, s, k, t);
    assert CutHolds(d, codeEnd, s, space[s]);
    forall b | IsBoundary(d, 0, codeEnd, b) ensures OnBoundary(after, b) {
      var u, j :| IsAt(space, u, j, b);
      SplitKeepsAt(d, space, s, k, t, u, j, b);
    }
  }

  /** When all targets start cuts, the decomposition is finished. */
  lemma {:induction false} SplitEnds(d: Decoder, codeEnd: int, n: int, space: Space, targets: set<int>)
    requires SplitState(d, codeEnd, n, space, targets) && forall t :: t in targets ==> StartsCode(space, t)
    ensures Decomposed(d, codeEnd, n, space)
  {
    forall s | s in space ensures TargetsStart(space, space[s]) { assert CutRecorded(space[s], targets); }
  }

  // ----- where the cuts are -----

  /** Where a cut starts: code at its start, at jump targets and behind what ends a basic block, data at its
      labels. */
  ghost predicate IsStart(d: Decoder, codeEnd: int, n: int, labels: Labels, bases: set<int>, s: int)
  {
    if s < codeEnd then s == 0 || JumpTarget(d, codeEnd, bases, s) || exists p :: EndsAt(d, codeEnd, p, s)
    else IsDataLabel(labels, s) && s < n
  }

  /** What ends a basic block is the last in its cut. */
  lemma {:induction false} EndsItsCut(d: Decoder, codeEnd: int, space: Space, s: int, k: nat, p: int)
    requires ValidDecoder(d) && IsAt(space, s, k, p) && CutHolds(d, codeEnd, s, space[s])
    requires p in d && !d[p].kind.Normal?
    ensures p + d[p].size == s + space[s].size
  {
    var c := space[s];
    if k == |c.instructions| {
      assert c.instructions[..k] == c.instructions;
    } else {
      assert ListedAt(d, s, c.instructions, k);
      var front := c.instructions[..|c.instructions| - 1];
      assert forall i :: 0 <= i < |front| ==> front[i] == c.instructions[i];
      assert k == |front|;
      BytesUpTo(c.instructions, k);
      assert c.instructions[..k + 1] == c.instructions;
    }
  }

  lemma {:induction false} StartsBehind(d: Decoder, codeEnd: int, n: int, space: Space, targets: set<int>, p: int,
                                        s: int)
    requires SplitState(d, codeEnd, n, space, targets) && EndsAt(d, codeEnd, p, s) && s < codeEnd
    ensures s in space
  {
    hide IsBoundary, CutHolds;
    assert OnBoundary(space, p);
    var u, k :| IsAt(space, u, k, p);
    EndsItsCut(d, codeEnd, space, u, k, p);
    assert Continues(space, u, codeEnd, n);
  }

  /** The cuts are exactly where they should be. */
  lemma {:induction false} StartsAreExact(d: Decoder, codeEnd: int, n: int, labels: Labels, bases: set<int>,
                                          space: Space, targets: set<int>)
    requires SplitState(d, codeEnd, n, space, targets) && DataIs(space, labels, codeEnd, n)
    requires forall t :: t in targets <==> JumpTarget(d, codeEnd, bases, t)
    requires forall t :: t in targets ==> StartsCode(space, t)
    ensures forall s :: s in space <==> IsStart(d, codeEnd, n, labels, bases, s)
  {
    hide IsBoundary, CutHolds, Recorded, OnBoundary, EndsAt, JumpTarget;
    forall s ensures s in space <==> IsStart(d, codeEnd, n, labels, bases, s) {
      assert StartsData(space, s) <==> IsDataLabel(labels, s) && codeEnd <= s < n;
      if s in space {
        assert InPlace(s, space[s], codeEnd, codeEnd, n);
        if space[s].CodeCut? { assert StartsCode(space, s); }
      } else if s < codeEnd {
        assert s != 0;
        forall p ensures !EndsAt(d, codeEnd, p, s) {
          if EndsAt(d, codeEnd, p, s) { StartsBehind(d, codeEnd, n, space, targets, p, s); }
        }
      }
    }
  }

  /** Every code cut starts on an instruction boundary. */
  lemma {:induction false} StartOnBoundary(d: Decoder, codeEnd: int, n: int, labels: Labels, bases: set<int>,
                                           space: Space, s: int)
    requires ValidDecoder(d) && JumpsOnBoundaries(d, codeEnd, bases) && StartsCode(space, s)
    requires InPlace(s, space[s], codeEnd, codeEnd, n) && CutHolds(d, codeEnd, s, space[s])
    requires IsStart(d, codeEnd, n, labels, bases, s)
    ensures IsBoundary(d, 0, codeEnd, s)
  {
    AheadOf(d, codeEnd, space, s, 0, s);
    if s != 0 {
      if JumpTarget(d, codeEnd, bases, s) {
        TargetsOnBoundaries(d, codeEnd, bases, {s});
      } else {
        var p :| EndsAt(d, codeEnd, p, s);
        NextBoundary(d, 0, codeEnd, p);
      }
    }
  }

  /** There is an instruction wherever a cut has a boundary. */
  lemma {:induction false} AheadOf(d: Decoder, codeEnd: int, space: Space, s: int, k: nat, b: int)
    requires ValidDecoder(d) && StartsCode(space, s) && CutHolds(d, codeEnd, s, space[s])
    requires k <= |space[s].instructions| && b == s + Bytes(space[s].instructions[..k]) && b < s + space[s].size
    ensures b in d && d[b].size > 0
    ensures k < |space[s].instructions| ==> space[s].instructions[k] == d[b]
  {
    var c := space[s];
    if k < |c.instructions| {
      assert ListedAt(d, s, c.instructions, k);
    } else {
      assert c.instructions[..k] == c.instructions;
    }
  }

  /** And so do the instructions in it. */
  lemma {:induction false} InCutOnBoundary(d: Decoder, codeEnd: int, n: int, space: Space, s: int, k: nat, b: int)
    requires ValidDecoder(d) && IsAt(space, s, k, b) && IsBoundary(d, 0, codeEnd, s)
    requires InPlace(s, space[s], codeEnd, codeEnd, n) && CutHolds(d, codeEnd, s, space[s])
    ensures IsBoundary(d, 0, codeEnd, b)
    decreases k
  {
    if k > 0 {
      hide CutHolds, IsBoundary;
      var instructions := space[s].instructions;
      var a := s + Bytes(instructions[..k - 1]);
      BytesUpTo(instructions, k - 1);
      AheadOf(d, codeEnd, space, s, k, b);
      AheadOf(d, codeEnd, space, s, k - 1, a);
      InCutOnBoundary(d, codeEnd, n, space, s, k - 1, a);
      NextBoundary(d, 0, codeEnd, a);
    }
  }

  /** The instruction boundaries of the code are those of the cuts. */
  lemma {:induction false} BoundariesAreExact(d: Decoder, codeEnd: int, n: int, labels: Labels, bases: set<int>,
                                              space: Space, targets: set<int>)
    requires SplitState(d, codeEnd, n, space, targets) && JumpsOnBoundaries(d, codeEnd, bases)
    requires forall s :: s in space <==> IsStart(d, codeEnd, n, labels, bases, s)
    ensures forall b :: IsBoundary(d, 0, codeEnd, b) <==> OnBoundary(space, b)
  {
    hide IsBoundary, CutHolds, Recorded, JumpsOnBoundaries, IsStart, Reasoned;
    forall b | OnBoundary(space, b) ensures IsBoundary(d, 0, codeEnd, b) {
      var s, k :| IsAt(space, s, k, b);
      assert InPlace(s, space[s], codeEnd, codeEnd, n);
      StartOnBoundary(d, codeEnd, n, labels, bases, space, s);
      InCutOnBoundary(d, codeEnd, n, space, s, k, b);
    }
  }

  predicate Free(space: Space, offset: int, size: nat)
  {
    forall s :: s in space ==> s + space[s].size <= offset || offset + size <= s
  }

  lemma {:induction false} FreeBetween(space: Space, lo: int, hi: int, n: int, offset: int, size: nat)
    requires Tiles(space, lo, hi, n) && lo <= offset && offset + size <= hi
    ensures Free(space, offset, size)
  {
    forall s | s in space ensures s + space[s].size <= offset || offset + size <= s {
      assert InPlace(s, space[s], lo, hi, n);
    }
  }

  lemma {:induction false} NothingLeft(d: Decoder, codeEnd: int, n: int, space: Space, start: int, cur: seq<Insn>)
    requires Parsed(d, codeEnd, n, space, start, cur, codeEnd)
    ensures start <= codeEnd && (start == codeEnd ==> cur == [])
  {
    if cur != [] {
      PrefixShorter(d, start, cur, 0);
    }
  }

  lemma {:induction false} TargetInCut(space: Space, t: int)
    requires OnBoundary(space, t)
    ensures exists s :: s in space && s <= t < s + space[s].size
  {
    var s, k :| IsAt(space, s, k, t);
  }

  /** Transfers instructions from a list to another, starting with the one at `offset`. */
  method SplitInstructionListAt(offset: int, original: seq<Insn>) returns (ok: bool, head: seq<Insn>, tail: seq<Insn>)
    ensures ok ==> head + tail == original && Bytes(head) == offset
    ensures !ok ==> head == original && tail == []
    ensures !ok && offset >= 0 && (forall i :: 0 <= i < |original| ==> original[i].size > 0) ==>
      forall k :: 0 <= k <= |original| ==> Bytes(original[..k]) != offset
  {
    var left, i := offset, 0;
    while left > 0 && i < |original|
      invariant 0 <= i <= |original| && left == offset - Bytes(original[..i])
      invariant (forall k :: 0 <= k < i ==> Bytes(original[..k]) < offset)
    {
      BytesUpTo(original, i);
      left := left - original[i].size;
      i := i + 1;
    }
    if left != 0 {
      if offset >= 0 && forall j :: 0 <= j < |original| ==> original[j].size > 0 {
        forall k | i <= k <= |original| ensures Bytes(original[..k]) != offset {
          BytesGrow(original[..k], i);
          assert original[..k][..i] == original[..i];
        }
      }
      return false, original, [];
    }
    return true, original[..i], original[i..];
  }

  lemma {:induction false} PrefixGrows(d: Decoder, start: int, s: seq<Insn>, j: nat, k: nat)
    requires ValidDecoder(d) && Lists(d, start, s) && j < k <= |s|
    ensures Bytes(s[..j]) < Bytes(s[..k])
  {
    PrefixLists(d, start, s, k);
    PrefixShorter(d, start, s[..k], j);
    assert s[..k][..j] == s[..j];
  }

  lemma {:induction false} UniqueSplit(d: Decoder, start: int, s: seq<Insn>, j: nat, k: nat)
    requires ValidDecoder(d) && Lists(d, start, s) && j <= |s| && k <= |s| && Bytes(s[..j]) == Bytes(s[..k])
    ensures j == k
  {
    if j < k {
      PrefixGrows(d, start, s, j, k);
    } else if k < j {
      PrefixGrows(d, start, s, k, j);
    }
  }

  lemma {:induction false} ListedSizes(d: Decoder, start: int, s: seq<Insn>)
    requires ValidDecoder(d) && Lists(d, start, s)
    ensures forall i :: 0 <= i < |s| ==> s[i].size > 0
  {
    forall i | 0 <= i < |s| ensures s[i].size > 0 { assert ListedAt(d, start, s, i); }
  }

  lemma {:induction false} PrefixLists(d: Decoder, start: int, s: seq<Insn>, k: nat)
    requires Lists(d, start, s) && k <= |s|
    ensures Lists(d, start, s[..k])
  {
    ListsSplit(d, start, s, k, start + Bytes(s[..k]), s[k..]);
  }

  lemma {:induction false} SpaceBehind(space: Space, codeEnd: int, n: int, s: int, t: int, after: Space)
    requires Tiles(space, codeEnd, codeEnd, n) && StartsCode(space, s) && s < t < s + space[s].size
    requires after.Keys == space.Keys && after[s].size == t - s
    requires forall u :: u in space && u != s ==> after[u] == space[u]
    ensures Free(after, t, s + space[s].size - t)
  {
  }

  class BasicBlockDecomposer {
    const decoder: Decoder
    const size: nat
    const labels: Labels
    /** The bases of the references to the block. */
    const bases: set<int>

    var currentBlockStart: int
    var currentInstructions: seq<Insn>
    var currentSuccessors: seq<Succ>
    var jumpTargets: set<int>
    var space: Space
    var containsUnsupportedInstructions: bool

    constructor (decoder: Decoder, size: nat, labels: Labels, bases: set<int>)
      ensures this.decoder == decoder && this.size == size && this.labels == labels && this.bases == bases
      ensures space == map[] && currentInstructions == [] && currentSuccessors == [] && jumpTargets == {}
    {
      this.decoder, this.size, this.labels, this.bases := decoder, size, labels, bases;
      currentBlockStart, currentInstructions, currentSuccessors := 0, [], [];
      jumpTargets, space, containsUnsupportedInstructions := {}, map[], false;
    }

    /** Between two instructions: everything in front of `o` has been handled. */
    ghost predicate Walking(codeEnd: int, o: int)
      reads this
    {
      && WalkState(decoder, codeEnd, size, bases, space, currentBlockStart, currentInstructions, jumpTargets, o)
      && currentSuccessors == [] && DataIs(space, labels, codeEnd, size)
    }

    /** Makes a cut, of the current instructions and successors if it is code, unless it would overlap. */
    method InsertBasicBlockRange(offset: int, length: nat, code: bool) returns (ok: bool)
      modifies this`space, this`currentInstructions, this`currentSuccessors
      ensures ok <==> Free(old(space), offset, length)
      ensures !ok ==> unchanged(this)
      ensures ok && code ==>
        && space == old(space)[offset := CodeCut(length, old(currentInstructions), old(currentSuccessors))]
        && currentInstructions == [] && currentSuccessors == []
      ensures ok && !code ==>
        && space == old(space)[offset := DataCut(length)]
        && currentInstructions == old(currentInstructions) && currentSuccessors == old(currentSuccessors)
    {
      if exists s :: s in space && !(s + space[s].size <= offset || offset + length <= s) {
        return false;
      }
      if code {
        space := space[offset := CodeCut(length, currentInstructions, currentSuccessors)];
        currentInstructions, currentSuccessors := [], [];
      } else {
        space := space[offset := DataCut(length)];
      }
      return true;
    }

    /** Closes the current basic block. */
    method EndCurrentBasicBlock(end: int, ghost codeEnd: int) returns (ok: bool)
      requires currentBlockStart < end <= codeEnd && Tiles(space, currentBlockStart, codeEnd, size)
      modifies this`space, this`currentInstructions, this`currentSuccessors, this`currentBlockStart
      ensures ok && currentBlockStart == end && currentInstructions == [] && currentSuccessors == []
      ensures space == Extended(old(space), old(currentBlockStart), old(currentInstructions), old(currentSuccessors),
                                end)
      ensures DataIs(old(space), labels, codeEnd, size) ==> DataIs(space, labels, codeEnd, size)
    {
      NotCutYet(space, currentBlockStart, codeEnd, size);
      if DataIs(space, labels, codeEnd, size) {
        DataStays(space, labels, codeEnd, size, currentBlockStart,
                  CodeCut(end - currentBlockStart, currentInstructions, currentSuccessors));
      }
      FreeBetween(space, currentBlockStart, codeEnd, size, currentBlockStart, end - currentBlockStart);
      ok := InsertBasicBlockRange(currentBlockStart, end - currentBlockStart, true);
      currentBlockStart := end;
    }

    /** Handles an instruction that is not a branch with an explicit destination: appends it, and closes the
        basic block if control does not go on behind it. */
    method HandlePlain(insn: Insn, offset: int, ghost codeEnd: int)
      requires Walking(codeEnd, offset) && offset in decoder && insn == decoder[offset] && offset + insn.size <= codeEnd
      requires insn.kind.Normal? || EndsControl(insn.kind)
      modifies this
      ensures Walking(codeEnd, offset + insn.size)
      ensures containsUnsupportedInstructions == old(containsUnsupportedInstructions)
    {
      hide Tiles;
      var next := offset + insn.size;
      ghost var start, cur, before := currentBlockStart, currentInstructions, space;
      currentInstructions := currentInstructions + [insn];
      if EndsControl(insn.kind) {
        var ended := EndCurrentBasicBlock(next, codeEnd);
        WalkEnd(decoder, codeEnd, size, bases, before, start, cur, jumpTargets, offset, next, space);
      } else {
        WalkNormal(decoder, codeEnd, size, bases, space, start, cur, jumpTargets, offset);
      }
    }

    /** Handles an instruction; fails at those that cannot be represented. */
    method HandleInstruction(insn: Insn, offset: int, ghost codeEnd: int) returns (ok: bool)
      requires Walking(codeEnd, offset) && offset in decoder && insn == decoder[offset] && offset + insn.size <= codeEnd
      modifies this
      ensures ok <==> Supported(insn.kind, size)
      ensures ok ==> Walking(codeEnd, offset + insn.size)
      ensures containsUnsupportedInstructions ==
        (old(containsUnsupportedInstructions) || (insn.kind.Branch? && insn.kind.condition == INVALID_CONDITION))
      ensures ok ==> containsUnsupportedInstructions == old(containsUnsupportedInstructions)
    {
      if insn.kind.SystemCall? {
        return false;
      }
      if !insn.kind.Branch? {
        HandlePlain(insn, offset, codeEnd);
        return true;
      }
      var condition := insn.kind.condition;
      if condition == INVALID_CONDITION {
        containsUnsupportedInstructions := true;
        return false;
      }
      ok := HandleBranch(insn, offset, codeEnd);
    }

    /** Handles a branch with an explicit destination. */
    method HandleBranch(insn: Insn, offset: int, ghost codeEnd: int) returns (ok: bool)
      requires Walking(codeEnd, offset) && offset in decoder && insn == decoder[offset] && offset + insn.size <= codeEnd
      requires insn.kind.Branch? && insn.kind.condition != INVALID_CONDITION
      modifies this
      ensures ok <==> Supported(insn.kind, size)
      ensures ok ==> Walking(codeEnd, offset + insn.size)
      ensures containsUnsupportedInstructions == old(containsUnsupportedInstructions)
    {
      hide Tiles;
      var next, condition := offset + insn.size, insn.kind.condition;
      ghost var start, cur, before, targets := currentBlockStart, currentInstructions, space, jumpTargets;
      // A conditional branch falls through to the next instruction on the inverse condition.
      if IsConditionalBranch(condition) {
        currentSuccessors := [Succ(InvertCondition(condition), Here(next), 0)] + currentSuccessors;
        jumpTargets := jumpTargets + {next};
      }
      match insn.kind.link {
        case Indirect => return false;
        case Direct =>
        case NoLink =>
          if !(insn.kind.target.Here? && 0 <= insn.kind.target.offset < size) {
            return false;
          }
      }
      if insn.kind.target.Here? {
        jumpTargets := jumpTargets + {insn.kind.target.offset};
      }
      currentSuccessors := [Succ(condition, insn.kind.target, insn.size)] + currentSuccessors;
      ghost var succs := currentSuccessors;
      assert jumpTargets == targets + BranchTargets(insn.kind, next);
      var ended := EndCurrentBasicBlock(next, codeEnd);
      WalkBranch(decoder, codeEnd, size, bases, before, start, cur, targets, offset, next, succs, space, jumpTargets);
      return true;
    }

    /** Finds the end of the code and makes a cut for each data label behind it. Fails if the block does not
        have its code first. */
    method GetCodeRangeAndCreateDataBasicBlocks() returns (ok: bool, end: int)
      requires space == map[] && forall k :: k in labels ==> k >= 0
      modifies this`space, this`currentInstructions, this`currentSuccessors
      ensures currentInstructions == old(currentInstructions) && currentSuccessors == old(currentSuccessors)
      ensures ok <==> CodeFirst(labels, size)
      ensures ok ==> IsCodeEnd(labels, size, end) && Tiles(space, 0, end, size)
      ensures ok ==> DataOnly(space) && DataIs(space, labels, end, size)
    {
      hide Tiles, DataOnly, DataIs, Ascended, Ascending, InOrder, LabelsSeen, CodeFirst, IsCodeEnd;
      var keys := AscendingKeys(labels.Keys);
      LabelsInOrder(labels, keys);
      end := 0;
      var codeEnd: int := size;
      var sawNonDataLabel := false;
      var i := |keys|;
      NothingCut(labels, size);
      NoneSeen(labels, keys, size);
      while i > 0
        invariant 0 <= i <= |keys|
        invariant currentInstructions == old(currentInstructions) && currentSuccessors == old(currentSuccessors)
        invariant LabelsSeen(labels, keys, size, i, codeEnd, sawNonDataLabel)
        invariant Tiles(space, 0, codeEnd, size) && DataOnly(space) && DataIs(space, labels, codeEnd, size)
      {
        KeyIsLabel(labels, keys, i - 1);
        var offset := keys[i - 1];
        if labels[offset].DataLabel? {
          if offset >= size {
            DataPastEnd(labels, size, offset);
            return false, end;
          }
          if sawNonDataLabel {
            NotCodeFirst(labels, keys, size, i, codeEnd);
            return false, end;
          }
          CreateData(offset, codeEnd, keys, i);
          codeEnd := offset;
        } else {
          SeenOther(labels, keys, size, i, codeEnd, sawNonDataLabel);
          sawNonDataLabel := sawNonDataLabel || labels[offset].OtherLabel?;
        }
        i := i - 1;
      }
      IsCodeFirst(labels, keys, size, codeEnd, sawNonDataLabel);
      return true, codeEnd;
    }

    /** Makes a data cut from a data label to the end of what is not cut yet. */
    method CreateData(offset: int, codeEnd: int, ghost keys: seq<int>, ghost i: nat)
      requires InOrder(labels, keys) && LabelsSeen(labels, keys, size, i, codeEnd, false) && i > 0
      requires offset == keys[i - 1] && labels[offset].DataLabel? && 0 <= offset < size
      requires Tiles(space, 0, codeEnd, size) && DataOnly(space) && DataIs(space, labels, codeEnd, size)
      modifies this`space, this`currentInstructions, this`currentSuccessors
      ensures currentInstructions == old(currentInstructions) && currentSuccessors == old(currentSuccessors)
      ensures LabelsSeen(labels, keys, size, i - 1, offset, false)
      ensures Tiles(space, 0, offset, size) && DataOnly(space) && DataIs(space, labels, offset, size)
    {
      SeenData(labels, keys, size, i, codeEnd);
      DataAdded(labels, keys, size, i, codeEnd, space);
      hide LabelsSeen, InOrder, DataIs;
      FreeBetween(space, 0, codeEnd, size, offset, codeEnd - offset);
      AddData(space, 0, codeEnd, size, offset);
      var inserted := InsertBasicBlockRange(offset, codeEnd - offset, false);
    }

    /** Records the code that references to the block lead to. */
    method InitJumpTargets(codeEnd: int)
      modifies this`jumpTargets
      ensures jumpTargets == set b | b in bases && b < codeEnd
    {
      jumpTargets := {};
      var todo := bases;
      while todo != {}
        invariant todo <= bases && jumpTargets == set b | b in bases - todo && b < codeEnd
        decreases |todo|
      {
        var base := Pick(todo);
        if base < codeEnd {
          jumpTargets := jumpTargets + {base};
        }
        todo := todo - {base};
      }
      assert bases - {} == bases;
    }

    /** Disassembles the code into rudimentary basic blocks. Succeeds exactly if the block has its code first
        and the code is made of instructions that can be represented. */
    method ParseInstructions() returns (ok: bool, codeEnd: int)
      requires ValidDecoder(decoder) && space == map[] && currentInstructions == [] && currentSuccessors == []
      requires forall k :: k in labels ==> k >= 0
      modifies this
      ensures ok <==> CodeFirst(labels, size) && Parses(decoder, 0, codeEnd, size)
      ensures CodeFirst(labels, size) ==> IsCodeEnd(labels, size, codeEnd)
      ensures containsUnsupportedInstructions == (old(containsUnsupportedInstructions) ||
        (CodeFirst(labels, size) && MeetsUnsupported(decoder, 0, codeEnd, size)))
      ensures ok ==> SplitState(decoder, codeEnd, size, space, jumpTargets)
      ensures ok ==> currentInstructions == [] && currentSuccessors == []
      ensures ok ==> DataIs(space, labels, codeEnd, size)
      ensures ok ==> forall t :: t in jumpTargets <==> JumpTarget(decoder, codeEnd, bases, t)
    {
      ok, codeEnd := GetCodeRangeAndCreateDataBasicBlocks();
      if !ok {
        return;
      }
      InitJumpTargets(codeEnd);
      currentBlockStart := 0;
      WalkBegins(decoder, codeEnd, size, bases, space, jumpTargets);
      ok := Walk(codeEnd);
      if !ok {
        return;
      }
      // If the last basic block did not end with a return or a branch, close it now.
      if currentBlockStart != codeEnd {
        ghost var start, cur, before := currentBlockStart, currentInstructions, space;
        var ended := EndCurrentBasicBlock(codeEnd, codeEnd);
        WalkRest(decoder, codeEnd, size, bases, before, start, cur, jumpTargets, space);
      }
      WalkEnds(decoder, codeEnd, size, bases, space, jumpTargets);
    }

    /** Decodes and handles the instructions up to the end of the code. */
    method Walk(codeEnd: int) returns (ok: bool)
      requires Walking(codeEnd, 0)
      modifies this
      ensures ok <==> Parses(decoder, 0, codeEnd, size)
      ensures ok ==> Walking(codeEnd, codeEnd) && currentBlockStart <= codeEnd
      ensures ok && currentBlockStart == codeEnd ==> currentInstructions == []
      ensures containsUnsupportedInstructions ==
        (old(containsUnsupportedInstructions) || MeetsUnsupported(decoder, 0, codeEnd, size))
    {
      hide Tiles, Supported, BoundariesMet, Recorded, TargetsMet, Reasoned, IsBoundary;
      var offset := 0;
      while offset < codeEnd
        invariant Walking(codeEnd, offset)
        invariant Parses(decoder, 0, codeEnd, size) <==> Parses(decoder, offset, codeEnd, size)
        invariant MeetsUnsupported(decoder, 0, codeEnd, size) <==> MeetsUnsupported(decoder, offset, codeEnd, size)
        invariant containsUnsupportedInstructions == old(containsUnsupportedInstructions)
        decreases codeEnd - offset
      {
        if offset !in decoder || offset + decoder[offset].size > codeEnd {
          return false;
        }
        ok := HandleInstruction(decoder[offset], offset, codeEnd);
        if !ok {
          return;
        }
        offset := offset + decoder[offset].size;
      }
      NothingLeft(decoder, codeEnd, size, space, currentBlockStart, currentInstructions);
      return true;
    }

    /** Finds the cut that contains an offset. */
    method FindBasicBlock(offset: int) returns (start: int)
      requires exists s :: s in space && s <= offset < s + space[s].size
      ensures start in space && start <= offset < start + space[start].size
    {
      var hits := set s | s in space && s <= offset < s + space[s].size;
      ghost var s :| s in space && s <= offset < s + space[s].size;
      assert s in hits;
      start := Pick(hits);
    }

    /** Splits the cut that contains a jump target, unless it starts there. */
    method SplitAt(target: int, ghost codeEnd: int)
      requires SplitState(decoder, codeEnd, size, space, jumpTargets) && target in jumpTargets
      requires IsBoundary(decoder, 0, codeEnd, target) && currentInstructions == [] && currentSuccessors == []
      modifies this`space, this`currentInstructions, this`currentSuccessors
      ensures SplitState(decoder, codeEnd, size, space, jumpTargets) && StartsCode(space, target)
      ensures forall u :: StartsCode(old(space), u) ==> StartsCode(space, u)
      ensures DataIs(old(space), labels, codeEnd, size) ==> DataIs(space, labels, codeEnd, size)
      ensures currentInstructions == [] && currentSuccessors == []
    {
      TargetInCut(space, target);
      var start := FindBasicBlock(target);
      ghost var k := BoundaryInCut(space, codeEnd, size, start, target);
      if target == start {
        return;
      }
      DivideCut(start, target, codeEnd, k);
    }

    /** Divides the cut at `start` at a jump target within. */
    method DivideCut(start: int, target: int, ghost codeEnd: int, ghost k: nat)
      requires SplitState(decoder, codeEnd, size, space, jumpTargets) && target in jumpTargets
      requires IsAt(space, start, k, target) && start < target
      modifies this`space, this`currentInstructions, this`currentSuccessors
      ensures SplitState(decoder, codeEnd, size, space, jumpTargets) && StartsCode(space, target)
      ensures forall u :: StartsCode(old(space), u) ==> StartsCode(space, u)
      ensures DataIs(old(space), labels, codeEnd, size) ==> DataIs(space, labels, codeEnd, size)
      ensures currentInstructions == [] && currentSuccessors == []
    {
      hide Tiles, Lists, Free, IsBoundary, Recorded, Fallthrough, EndsControl, ValidDecoder, OnBoundary, Bytes,
        CutRecorded, ListedAt, InPlace, SuccessorsOf, AllNormal;
      ghost var before := space;
      var cut := space[start];
      var leftSize := target - start;
      assert CutHolds(decoder, codeEnd, start, cut);
      var head, tail := SliceInstructions(leftSize, cut.instructions, start, k);
      currentInstructions, currentSuccessors := tail, cut.successors;
      space := space[start := CodeCut(leftSize, head, Fallthrough(target))];
      TargetFree(before, codeEnd, size, start, target);
      if DataIs(before, labels, codeEnd, size) {
        DataStays(before, labels, codeEnd, size, start, space[start]);
        DataStays(space, labels, codeEnd, size, target, CodeCut(cut.size - leftSize, tail, cut.successors));
      }
      SpaceBehind(before, codeEnd, size, start, target, space);
      var inserted := InsertBasicBlockRange(target, cut.size - leftSize, true);
      SplitNext(decoder, codeEnd, size, before, jumpTargets, start, k, target, space);
    }

    method SliceInstructions(offset: int, instructions: seq<Insn>, ghost start: int, ghost k: nat)
      returns (head: seq<Insn>, tail: seq<Insn>)
      requires ValidDecoder(decoder) && Lists(decoder, start, instructions)
      requires k <= |instructions| && offset == Bytes(instructions[..k])
      ensures head == instructions[..k] && tail == instructions[k..]
    {
      ListedSizes(decoder, start, instructions);
      var split;
      split, head, tail := SplitInstructionListAt(offset, instructions);
      assert split;
      assert instructions[..|head|] == head;
      UniqueSplit(decoder, start, instructions, |head|, k);
    }

    /** Splits the cuts at all jump targets. */
    method SplitCodeBlocksAtBranchTargets(ghost codeEnd: int)
      requires SplitState(decoder, codeEnd, size, space, jumpTargets)
      requires forall t :: t in jumpTargets ==> IsBoundary(decoder, 0, codeEnd, t)
      requires currentInstructions == [] && currentSuccessors == [] && DataIs(space, labels, codeEnd, size)
      modifies this`space, this`currentInstructions, this`currentSuccessors
      ensures SplitState(decoder, codeEnd, size, space, jumpTargets) && DataIs(space, labels, codeEnd, size)
      ensures Decomposed(decoder, codeEnd, size, space)
      ensures forall t :: t in jumpTargets ==> StartsCode(space, t)
    {
      hide Ascending, Ascended, SplitState, DataIs, Decomposed, StartsCode, IsBoundary;
      var targets := AscendingKeys(jumpTargets);
      for i := 0 to |targets|
        invariant SplitState(decoder, codeEnd, size, space, jumpTargets)
        invariant forall j :: 0 <= j < i ==> StartsCode(space, targets[j])
        invariant currentInstructions == [] && currentSuccessors == [] && DataIs(space, labels, codeEnd, size)
      {
        assert targets[i] in targets;
        SplitAt(targets[i], codeEnd);
      }
      forall t | t in jumpTargets ensures StartsCode(space, t) { assert t in targets; }
      SplitEnds(decoder, codeEnd, size, space, jumpTargets);
    }

    /** Decomposes the block, given that its jumps lie on instruction boundaries. */
    method Disassemble() returns (ok: bool, codeEnd: int)
      requires ValidDecoder(decoder) && space == map[] && currentInstructions == [] && currentSuccessors == []
      requires forall k :: k in labels ==> k >= 0
      requires forall end :: IsCodeEnd(labels, size, end) && Parses(decoder, 0, end, size) ==>
        JumpsOnBoundaries(decoder, end, bases)
      modifies this
      ensures ok <==> CodeFirst(labels, size) && Parses(decoder, 0, codeEnd, size)
      ensures CodeFirst(labels, size) ==> IsCodeEnd(labels, size, codeEnd)
      ensures containsUnsupportedInstructions == (old(containsUnsupportedInstructions) ||
        (CodeFirst(labels, size) && MeetsUnsupported(decoder, 0, codeEnd, size)))
      ensures ok ==> Decomposed(decoder, codeEnd, size, space)
      ensures ok ==> forall s :: s in space <==> IsStart(decoder, codeEnd, size, labels, bases, s)
      ensures ok ==> forall o :: IsBoundary(decoder, 0, codeEnd, o) <==> OnBoundary(space, o)
      ensures ok ==> forall b :: b in bases && b < codeEnd ==> StartsCode(space, b)
      ensures ok ==> forall s :: StartsData(space, s) <==> IsDataLabel(labels, s) && codeEnd <= s < size
    {
      ok, codeEnd := ParseInstructions();
      if ok {
        TargetsOnBoundaries(decoder, codeEnd, bases, jumpTargets);
        SplitCodeBlocksAtBranchTargets(codeEnd);
        StartsAreExact(decoder, codeEnd, size, labels, bases, space, jumpTargets);
        BoundariesAreExact(decoder, codeEnd, size, labels, bases, space, jumpTargets);
        assert forall b :: b in bases && b < codeEnd ==> JumpTarget(decoder, codeEnd, bases, b);
      }
    }
  }
}
