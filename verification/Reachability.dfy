/** Which basic blocks of a subgraph can be reached from those that other blocks refer to. */
module Reachability {
  import opened BasicBlocks
  import opened OrderedMaps

  // ----- reachability, defined by paths -----

  predicate PointsTo(references: map<int, BasicBlockReference>, t: BBId)
  {
    exists o :: o in references && references[o].ToBasicBlock? && references[o].bb == t
  }

  predicate InstructionsPointTo(instructions: seq<Instruction>, t: BBId)
  {
    exists i :: 0 <= i < |instructions| && PointsTo(instructions[i].references, t)
  }

  predicate SuccessorsPointTo(successors: seq<Successor>, t: BBId)
  {
    exists i :: 0 <= i < |successors| && successors[i].reference.ToBasicBlock? && successors[i].reference.bb == t
  }

  /** A basic block refers to another one: through its data, an instruction or a successor. */
  predicate Edge(bb: BasicBlock, t: BBId)
  {
    match bb
    case Data(_, _, references) => PointsTo(references, t)
    case Code(_, instructions, successors) => InstructionsPointTo(instructions, t) || SuccessorsPointTo(successors, t)
    case End(_) => false
  }

  type Subgraph = map<BBId, BasicBlock>

  ghost predicate Closed(bbs: Subgraph)
  {
    forall b, t :: b in bbs && Edge(bbs[b], t) ==> t in bbs
  }

  ghost predicate Path(bbs: Subgraph, p: seq<BBId>)
  {
    && |p| > 0 && (forall i :: 0 <= i < |p| ==> p[i] in bbs)
    && forall i, j :: 0 <= i && j == i + 1 < |p| ==> Edge(bbs[p[i]], p[j])
  }

  /** There is a path from an externally referenced basic block. */
  ghost predicate Reachable(bbs: Subgraph, roots: set<BBId>, b: BBId)
  {
    exists p :: Path(bbs, p) && p[0] in roots && p[|p| - 1] == b
  }

  lemma {:induction false} RootReachable(bbs: Subgraph, roots: set<BBId>, b: BBId)
    requires b in roots && b in bbs
    ensures Reachable(bbs, roots, b)
  {
    assert Path(bbs, [b]);
  }

  lemma {:induction false} EdgeReachable(bbs: Subgraph, roots: set<BBId>, b: BBId, t: BBId)
    requires Reachable(bbs, roots, b) && b in bbs && t in bbs && Edge(bbs[b], t)
    ensures Reachable(bbs, roots, t)
  {
    var p :| Path(bbs, p) && p[0] in roots && p[|p| - 1] == b;
    var q := p + [t];
    forall i, j | 0 <= i && j == i + 1 < |q| ensures Edge(bbs[q[i]], q[j]) {}
    assert Path(bbs, q);
  }

  type ReachabilityMap = map<BBId, bool>

  /** Everything that a marked block refers to is marked or waiting. */
  ghost predicate Explored(bbs: Subgraph, rm: ReachabilityMap, queue: set<BBId>)
  {
    forall b, t :: b in bbs && b in rm && rm[b] && Edge(bbs[b], t) ==> t in queue || (t in rm && rm[t])
  }

  /** A closed set of marked blocks that has the roots has everything that is reachable. */
  lemma {:induction false} PathMarked(bbs: Subgraph, roots: set<BBId>, rm: ReachabilityMap, p: seq<BBId>)
    requires Path(bbs, p) && p[0] in roots && rm.Keys == bbs.Keys && Explored(bbs, rm, {})
    requires forall r :: r in roots && r in bbs ==> rm[r]
    ensures rm[p[|p| - 1]]
    decreases |p|
  {
    if |p| > 1 {
      var q := p[..|p| - 1];
      assert Path(bbs, q);
      PathMarked(bbs, roots, rm, q);
      assert Edge(bbs[p[|p| - 2]], p[|p| - 1]);
    }
  }

  // ----- the worklist -----

  ghost predicate PointsToBut(references: map<int, BasicBlockReference>, todo: set<int>, t: BBId)
  {
    exists o :: o in references && o !in todo && references[o].ToBasicBlock? && references[o].bb == t
  }

  /** Puts the basic blocks that references lead to into the queue. */
  method EnqueueReferences(references: map<int, BasicBlockReference>, rm: ReachabilityMap, queue: set<BBId>)
    returns (now: set<BBId>)
    requires forall t :: PointsTo(references, t) ==> t in rm
    ensures forall t :: t in now <==> t in queue || (PointsTo(references, t) && !rm[t])
  {
    now := queue;
    var todo := references.Keys;
    while todo != {}
      invariant todo <= references.Keys
      invariant forall t :: t in now <==> t in queue || (t in rm && !rm[t] && PointsToBut(references, todo, t))
      decreases |todo|
    {
      var o := Pick(todo);
      var ref := references[o];
      if ref.ToBasicBlock? {
        assert PointsTo(references, ref.bb);
        if !rm[ref.bb] {
          now := now + {ref.bb};
        }
      }
      todo := todo - {o};
    }
  }

  lemma {:induction false} OneMoreInstruction(instructions: seq<Instruction>, i: nat, t: BBId)
    requires i < |instructions|
    ensures InstructionsPointTo(instructions[..i + 1], t) <==>
      InstructionsPointTo(instructions[..i], t) || PointsTo(instructions[i].references, t)
  {
    var a, b := instructions[..i], instructions[..i + 1];
    assert b[i] == instructions[i] && forall k :: 0 <= k < i ==> b[k] == a[k];
  }

  lemma {:induction false} OneMoreSuccessor(successors: seq<Successor>, i: nat, t: BBId)
    requires i < |successors|
    ensures SuccessorsPointTo(successors[..i + 1], t) <==>
      SuccessorsPointTo(successors[..i], t) ||
        (successors[i].reference.ToBasicBlock? && successors[i].reference.bb == t)
  {
    var a, b := successors[..i], successors[..i + 1];
    assert b[i] == successors[i] && forall k :: 0 <= k < i ==> b[k] == a[k];
  }

  method EnqueueInstructions(instructions: seq<Instruction>, rm: ReachabilityMap, queue: set<BBId>)
    returns (now: set<BBId>)
    requires forall t :: InstructionsPointTo(instructions, t) ==> t in rm
    ensures forall t :: t in now <==> t in queue || (InstructionsPointTo(instructions, t) && !rm[t])
  {
    now := queue;
    for i := 0 to |instructions|
      invariant forall t :: t in now <==> t in queue || (t in rm && !rm[t] && InstructionsPointTo(instructions[..i], t))
    {
      forall t | PointsTo(instructions[i].references, t) ensures t in rm {
        assert InstructionsPointTo(instructions, t);
      }
      now := EnqueueReferences(instructions[i].references, rm, now);
      forall t
        ensures InstructionsPointTo(instructions[..i + 1], t) <==>
          InstructionsPointTo(instructions[..i], t) || PointsTo(instructions[i].references, t)
      {
        OneMoreInstruction(instructions, i, t);
      }
    }
    assert instructions[..|instructions|] == instructions;
  }

  method EnqueueSuccessors(successors: seq<Successor>, rm: ReachabilityMap, queue: set<BBId>)
    returns (now: set<BBId>)
    requires forall t :: SuccessorsPointTo(successors, t) ==> t in rm
    ensures forall t :: t in now <==> t in queue || (SuccessorsPointTo(successors, t) && !rm[t])
  {
    now := queue;
    for i := 0 to |successors|
      invariant forall t :: t in now <==> t in queue || (t in rm && !rm[t] && SuccessorsPointTo(successors[..i], t))
    {
      var ref := successors[i].reference;
      if ref.ToBasicBlock? {
        assert SuccessorsPointTo(successors, ref.bb);
        if !rm[ref.bb] {
          now := now + {ref.bb};
        }
      }
      forall t
        ensures SuccessorsPointTo(successors[..i + 1], t) <==>
          SuccessorsPointTo(successors[..i], t) || (ref.ToBasicBlock? && ref.bb == t)
      {
        OneMoreSuccessor(successors, i, t);
      }
    }
    assert successors[..|successors|] == successors;
  }

  /** Puts the unmarked basic blocks that a basic block refers to into the queue. */
  method Enqueue(bb: BasicBlock, rm: ReachabilityMap, queue: set<BBId>) returns (now: set<BBId>)
    requires forall t :: Edge(bb, t) ==> t in rm
    ensures forall t :: t in now <==> t in queue || (Edge(bb, t) && !rm[t])
  {
    match bb
    case Data(_, _, references) =>
      forall t | PointsTo(references, t) ensures t in rm { assert Edge(bb, t); }
      now := EnqueueReferences(references, rm, queue);
    case Code(_, instructions, successors) =>
      forall t | InstructionsPointTo(instructions, t) || SuccessorsPointTo(successors, t) ensures t in rm {
        assert Edge(bb, t);
      }
      now := EnqueueInstructions(instructions, rm, queue);
      now := EnqueueSuccessors(successors, rm, now);
    case End(_) =>
      now := queue;
  }

  function Unmarked(rm: ReachabilityMap): set<BBId> { set b | b in rm && !rm[b] }

  /** What holds while the queue is worked off: it has unmarked blocks only; what is in it or marked is
      reachable; the roots are marked or in it, and so is everything that a marked block refers to. */
  ghost predicate Working(bbs: Subgraph, roots: set<BBId>, rm: ReachabilityMap, queue: set<BBId>)
  {
    && rm.Keys == bbs.Keys && queue <= Unmarked(rm)
    && (forall b :: b in bbs && (b in queue || rm[b]) ==> Reachable(bbs, roots, b))
    && (forall r :: r in roots ==> r in queue || (r in rm && rm[r]))
    && Explored(bbs, rm, queue)
  }

  lemma {:induction false} WorkBegins(bbs: Subgraph, roots: set<BBId>, rm: ReachabilityMap)
    requires roots <= bbs.Keys && rm.Keys == bbs.Keys && forall b :: b in rm ==> !rm[b]
    ensures Working(bbs, roots, rm, roots)
  {
    forall r | r in roots ensures Reachable(bbs, roots, r) { RootReachable(bbs, roots, r); }
  }

  lemma {:induction false} StaysExplored(bbs: Subgraph, rm: ReachabilityMap, queue: set<BBId>, b: BBId,
                                         rm': ReachabilityMap, queue': set<BBId>)
    requires rm.Keys == bbs.Keys && b in bbs && rm' == rm[b := true] && Explored(bbs, rm, queue) && Closed(bbs)
    requires forall t :: t in queue' <==> t in queue - {b} || (Edge(bbs[b], t) && !rm'[t])
    ensures Explored(bbs, rm', queue')
  {
  }

  lemma {:induction false} WorkNext(bbs: Subgraph, roots: set<BBId>, rm: ReachabilityMap, queue: set<BBId>, b: BBId,
                                    rm': ReachabilityMap, queue': set<BBId>)
    requires Closed(bbs) && Working(bbs, roots, rm, queue) && b in queue && rm' == rm[b := true]
    requires forall t :: t in queue' <==> t in queue - {b} || (Edge(bbs[b], t) && !rm'[t])
    ensures Working(bbs, roots, rm', queue') && Unmarked(rm') < Unmarked(rm)
  {
    assert b in Unmarked(rm) && b !in Unmarked(rm');
    forall t | t in queue' ensures t in Unmarked(rm') && Reachable(bbs, roots, t) {
      if t !in queue - {b} {
        EdgeReachable(bbs, roots, b, t);
      } else {
        assert t in Unmarked(rm);
      }
    }
    StaysExplored(bbs, rm, queue, b, rm', queue');
  }

  lemma {:induction false} WorkEnds(bbs: Subgraph, roots: set<BBId>, rm: ReachabilityMap)
    requires roots <= bbs.Keys && Working(bbs, roots, rm, {})
    ensures forall b :: b in bbs ==> (rm[b] <==> Reachable(bbs, roots, b))
  {
    forall b | b in bbs && Reachable(bbs, roots, b) ensures rm[b] {
      var p :| Path(bbs, p) && p[0] in roots && p[|p| - 1] == b;
      PathMarked(bbs, roots, rm, p);
    }
  }

  /** Marks exactly the basic blocks that can be reached; each one is taken from the queue at most once. */
  method GetReachabilityMap(bbs: Subgraph, roots: set<BBId>) returns (rm: ReachabilityMap)
    requires Closed(bbs) && roots <= bbs.Keys
    ensures rm.Keys == bbs.Keys
    ensures forall b :: b in bbs ==> (rm[b] <==> Reachable(bbs, roots, b))
  {
    rm := map b | b in bbs :: false;
    var queue := roots;
    WorkBegins(bbs, roots, rm);
    while queue != {}
      invariant Working(bbs, roots, rm, queue)
      decreases Unmarked(rm)
    {
      var b := Pick(queue);
      ghost var before, waiting := rm, queue;
      assert b in Unmarked(rm);
      rm := rm[b := true];
      forall t | Edge(bbs[b], t) ensures t in rm {}
      queue := Enqueue(bbs[b], rm, queue - {b});
      WorkNext(bbs, roots, before, waiting, b, rm, queue);
    }
    WorkEnds(bbs, roots, rm);
  }
}
