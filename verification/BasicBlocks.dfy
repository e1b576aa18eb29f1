/** Basic blocks as the decomposer produces them and the block builder consumes them. */
module BasicBlocks {
  import opened Conditions
  import opened Types

  type BBId = nat

  /** A reference to a block of the block graph, or to a basic block of the same subgraph.
      A reference to a basic block always addresses its start. */
  datatype BasicBlockReference =
    | ToBlock(kind: nat, size: nat, block: BlockId, offset: int, base: int)
    | ToBasicBlock(kind: nat, size: nat, bb: BBId)

  datatype Instruction = Instruction(data: seq<uint8>, references: map<int, BasicBlockReference>)

  /** A possible continuation of a basic block, with the condition under which it is taken. */
  datatype Successor = Successor(condition: Condition, reference: BasicBlockReference)

  datatype BasicBlock =
    | Code(alignment: nat, instructions: seq<Instruction>, successors: seq<Successor>)
    | Data(alignment: nat, data: seq<uint8>, references: map<int, BasicBlockReference>)
    | End(alignment: nat)

  /** The bytes of a list of instructions, back to back. */
  function InstructionBytes(instructions: seq<Instruction>): seq<uint8>
  {
    if instructions == [] then [] else instructions[0].data + InstructionBytes(instructions[1..])
  }

  /** The number of bytes a basic block occupies before its successors are added. */
  function BasicBlockSize(bb: BasicBlock): nat
  {
    match bb
    case Code(_, instructions, _) => |InstructionBytes(instructions)|
    case Data(_, data, _) => |data|
    case End(_) => 0
  }

  /** What the subgraph validity check demands of a code block's successors: none, one that is
      unconditional, or two with complementary conditions. */
  predicate HasValidSuccessors(successors: seq<Successor>)
  {
    match |successors|
    case 0 => true
    case 1 => successors[0].condition == CONDITION_TRUE
    case 2 =>
      && successors[1].condition != INVALID_CONDITION
      && successors[0].condition == InvertCondition(successors[1].condition)
      && successors[0].condition != INVALID_CONDITION
    case _ => false
  }
}
