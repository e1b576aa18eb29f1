/** Types shared by the block graph, the decomposer and the block builder. */
module Types {
  type uint8 = x: int | 0 <= x < 256

  /** Blocks live in the block graph's map from ids to blocks, so a block's id also stands for a
      pointer to it. */
  type BlockId = int

  datatype Option<+T> = None | Some(value: T)

  const PC_RELATIVE_REF: nat := 0

  /** A reference of the block graph: `size` bytes that address `offset` of block `referenced`.
      `base` is the position the reference tracks; for a direct reference it equals `offset`. */
  datatype Reference = Reference(kind: nat, size: nat, referenced: BlockId, offset: int, base: int)

  type ReferenceMap = map<int, Reference>

  /** An offset moved by `d`; named so that quantifiers over moved offsets have a trigger. */
  function Plus(o: int, d: int): int { o + d }
}
