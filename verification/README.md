# A model of Syzygy's block graph and basic-block rewriting

Syzygy rewrites 32-bit Windows binaries after linking. It holds a binary as a graph of blocks (bytes, labels and
typed references between blocks), cuts code blocks into basic blocks, lets transforms rearrange them, and lays the
result out again as blocks with freshly encoded branches. This project models that core in Dafny and proves what it
keeps.

| part | modules |
|---|---|
| conditions, x86 branches and NOPs, bytes | Conditions, X86, ByteStrings, Types, Buffers |
| laying out a basic-block order: relaxation of branch sizes | Layout, LayoutTheorems |
| emitting a layout, and what running the bytes does | Emission, ControlFlow |
| the block builder: from a subgraph to blocks of the graph | BasicBlocks, BuilderSpecs, BuilderPlans, Redirection, BlockBuilder, Merge |
| the block graph: references and their referrers, insertion and removal of bytes | GraphSpecs, OrderedMaps, GraphTheorems, BlockGraph |
| the address space: placing, resizing and merging blocks | AddressRanges, Merging, MergeSteps, AddressSpaces |
| the decomposer: from linear code to basic blocks; reachability | Decomposition, Decomposer, SubGraphs, Determinacy, Reachability |
| decomposing, rearranging and merging together | Landings, Rewriting |
| saving and loading a graph | Archives, SavedItems, SerializerSpecs, Serializer |
| operand encoding; forward labels | Operands, Labels |
| writing and reading `ar` archives | ArSymbols, ArHeaders, ArTables, ArFiles, ArReaders |
| inputs for the findings below | Counterexample, Findings |

A block pointer is a block id, and the graph is one object that owns a map from ids to blocks, as Syzygy's
`blocks_` map owns them by value. `Strip` takes the referrer records out of a graph: because references and referrers
mirror each other (`GraphSpecs.Mirrored`, part of the graph's `Valid`), a graph is determined by what `Strip` leaves
(`GraphSpecs.MirrorIsUnique`), so operations say what they do to the references and the mirror gives the referrers.

## Main results

- **Rewriting preserves runs.** `Rewriting.RewritingPreservesRuns`: decompose a block, put its basic blocks into any
  arrangement over any number of new blocks, and merge. For every run of the old code, of any length and however its
  branches are decided, each step is kept: an instruction is found byte for byte where its basic block is now, its
  references lead to where their targets are now, and running the emitted branches and NOPs behind it arrives where
  the old code went on. Jump tables and other data keep their bytes, references and alignment in the same way
  (`Landings.DataLands`), and references from outside enter at the new places (`Rewriting.EntriesKept`).
- **The relaxation loop** terminates within the number of branches plus two passes (`RelaxationPasses`), ends with
  displacements that fit for every order that is safe (`SafeLayoutFits`; with all alignments 1 every order is), and
  then gives every branch the smallest size that any consistent assignment gives it (`RelaxedIsLeastFromFresh`).
- **Decomposition preserves control flow** (`DecompositionPreservesControlFlow`). `Disassemble` makes such a
  decomposition exactly when the labels and the instructions allow one, with cuts exactly where code, references and
  labels say (`Decomposer.StartsAreExact`); there is only one (`Determinacy.DecompositionIsUnique`).
- **References and referrers mirror each other** through every operation on the graph; inserting and removing bytes
  are splices that carry labels and references along, and undo each other exactly when nothing straddles the spot.
- **Merging a range of blocks keeps every reference** at the same source and target address, every byte at its
  address and every label where it was, except where two blocks bring one to the same place.
- **Round trips**: a saved graph is loaded as it was (`Serializer.SaveAndLoad`); an archive is read as it was written
  (`ArReaders.WriteAndRead`); operands decode to what was encoded, with the exact exceptions (`OperandDecodesIff`).

## Findings

Behaviour of the code that differs from what its comments or its purpose promise. The model does what the code does.

- `syzygy/block_graph/block_builder.cc:818-827`: the size that a pass requires of a second branch is computed from
  the size that the same pass requires of the first, before the first one is kept at the larger size it already had.
  With alignment in play the first one's required size can shrink between passes, and relaxation can then stop with
  a short second branch out of reach. `Counterexample.RelaxationCanFail` is such an order, and
  `Counterexample.BuilderCanGoWrong` shows that the emitted block then branches to the wrong place although the
  subgraph is valid. `LayoutTheorems.SafeLayoutFits` says which orders are safe, in terms of the order and the
  alignments alone; `LayoutTheorems.RelaxedFitsIff` and `Merge.MergePreservesControlFlow` are exact for any layout.
- `syzygy/assm/assembler_base_impl.h:282-284`: base EBP with an index and no displacement is encoded as the form
  without a base. `Operands.OperandDecodesIff` is exact; `Operands.EbpWithIndexIsLost` is an example.
- `syzygy/block_graph/block_graph.cc:428-479`: resizing an empty block ignores that the new range may be occupied.
  `AddressSpaces.AddressSpace.ResizeBlock` says exactly when the address space is still consistent;
  `Findings.ResizeCanOverlap` is a block that ends up within another.
- `syzygy/block_graph/block_graph.cc:939-999`: removing a range that runs past the end of the block is not refused,
  and takes the whole length off the size. `GraphTheorems.RemoveSplicesIff` says that removal is a splice exactly if
  the range is in the block; `Findings.RemovalCanRunPastEnd` is a block left with more data than it has room for.
- `syzygy/block_graph/block_graph.cc:1287-1328`: a transfer of referrers that fails leaves those in front of the
  failing one redirected. `BlockGraphs.BlockGraph.TransferReferrers` says which; `Findings.TransferCanStopHalfway` is
  a transfer that moves the first of two.
- `syzygy/block_graph/block_builder.cc:1024-1031`: a reference from outside that is not direct loses the distance from
  its base to its offset. `Findings.DistanceKeptIff` is exact.
- `syzygy/block_graph/block_graph_serializer.cc:388-389`: the check of a loaded block type lets the bound of the types
  through, which is not a type. `Serializer.BlockGraphSerializer.LoadBlockProperties` does the same.
- `syzygy/ar/ar_writer.cc:336-376`: the mode is printed signed. One from 2^31 up to 2^32 - 10,000,000 then has too many
  characters and is refused; a larger one is written in a way that `syzygy/ar/ar_reader.cc:42-71` does not read.
  `ArHeaders.ModeFitsIff`, `ArHeaders.ModeParsesIff` and `ArHeaders.HeaderParsesIff` are exact; `Findings.ModeIsLost`
  is a header.
- `syzygy/ar/ar_reader.cc:320-337`: seeking to the offset where the reader already is does not update the index.
  `ArReaders.ArReader.SeekIndex` says that this is right in every archive that the writer makes, where offsets ascend;
  `Findings.SeekCanKeepIndex` is a reader with another table, which seeks its first file and then has none to extract.

## Model

| member | source | states |
|---|---|---|
| `Rewriting.RewritingPreservesRuns` | syzygy/block_graph/basic_block_decomposer.cc:149-193 | every run of the old code from a cut is kept step by step by the new blocks, bytes, references and continuations, for any arrangement of the basic blocks whose orders are safe, any flags and any length |
| `Rewriting.RunIsKept` | syzygy/block_graph/basic_block_decomposer.cc:584-634 | the same from every instruction, given that every cut has landed in its new block |
| `Landings.CutLands` | syzygy/block_graph/block_builder.cc:902-985 | the instructions of every code cut are in its new block byte for byte, with exactly the references they had, directed to where the targets are now, and what follows them reaches the new place of the target the cut goes on with |
| `Landings.DataLands` | syzygy/block_graph/block_builder.cc:598-618 | every data cut is in its new block byte for byte, with exactly the references it had, directed to where the targets are now; one at a multiple of the size of a pointer in a block aligned to that is at such a multiple again, in a block aligned to that |
| `Landings.CutIsPlaced` | syzygy/block_graph/basic_block_decomposer.cc:176-190 | aligned data is placed at a multiple of the size of a pointer, in a block of at least that alignment, behind less padding than a pointer takes; every other cut, code included, directly behind what is in front of it |
| `Rewriting.EntriesKept` | syzygy/block_graph/block_builder.cc:1004-1036 | a reference from another block into the old code leads to the start of that code in its new block, offset and base alike, and keeps its kind and size |
| `Rewriting.UnalignedIsSafe` | syzygy/block_graph/basic_block_decomposer.cc:176-190 | every arrangement is safe if the block was aligned to less than a pointer |
| `Rewriting.SubGraphIsSound` | syzygy/block_graph/basic_block_decomposer.cc:584-634 | what the decomposer makes of a block meets everything the builder demands of a subgraph, however its basic blocks are arranged |
| `Rewriting.Apply` | syzygy/block_graph/transform.cc:78-122 | decomposing, arranging and merging succeeds exactly when the labels put code before data, the code parses, every reference of the block outside its branches is long and, if to the block itself, direct, every reference to the block leads to code, a data label or the end, and no description has a basic block behind the end block; then the block is rewritten, otherwise the graph is as it was. Whenever the block can be decomposed, its cuts start exactly at the code, at jump targets, behind what ends a basic block, and at data labels |
| `Rewriting.AllowedIsRewritable` | syzygy/block_graph/basic_block_decomposer.cc:998-1081 | whether the cuts let all references be copied is decided by the references, the labels and the code alone |
| `Determinacy.CutsCanBeCopied` | syzygy/block_graph/basic_block_decomposer.cc:1030-1113 | every reference in the body of a cut can be copied exactly if every reference outside the branches can, seen without the cuts |
| `Determinacy.DecompositionIsUnique` | syzygy/block_graph/basic_block_decomposer.cc:584-634 | two decompositions of the same code with cuts at the same places are the same: sizes, instructions and successors |
| `Determinacy.SubGraphIsUnique` | syzygy/block_graph/basic_block_decomposer.cc:1083-1144 | the subgraph of a decomposed block is determined by the block and its cuts |
| `SubGraphs.CopyReferences` | syzygy/block_graph/basic_block_decomposer.cc:1030-1081 | exactly the references within the item are copied, relative to it; fails exactly on one that is short, indirect within the block, or leads into the middle of a basic block |
| `SubGraphs.BuildSubGraph` | syzygy/block_graph/basic_block_decomposer.cc:1083-1113 | every cut becomes a basic block with the same bytes, references and resolved successors, data that was aligned to a pointer with that alignment and all else with none |
| `SubGraphs.ResolveSuccessors` | syzygy/block_graph/basic_block_decomposer.cc:1115-1144 | branches within the block refer to the basic block at their target, the others keep their reference |
| `SubGraphs.CopyExternalReferrers` | syzygy/block_graph/basic_block_decomposer.cc:998-1028 | exactly the referrers from other blocks are recorded, each with the basic block that its reference leads to |
| `Merge.MergePreservesControlFlow` | syzygy/block_graph/block_builder.cc:1209-1235 | after a merge the branches of a new block do what the subgraph says exactly when every second branch has room; then running the bytes from behind each basic block, padding included, reaches the successor the flags select |
| `Merge.SafeMergePreservesControlFlow` | syzygy/block_graph/block_builder.cc:1209-1235 | for an order that is safe, which the subgraph alone shows, control flow is preserved |
| `Merge.Builder.Merge` | syzygy/block_graph/block_builder.cc:1209-1235 | fails exactly if an end block is followed by another basic block, and then changes nothing; otherwise there is a new block for each description that is not empty, listed in order, with the kind, section, attributes and name of the description, the largest alignment among the description and its basic blocks, and the laid out subgraph as data; outside references lead to them, and the original, if there is one, is gone |
| `Merge.EndBlocksAreWellPlaced` | syzygy/block_graph/block_builder.cc:96-121 | true exactly if no basic block that is not an end block follows one that is |
| `Merge.GenerateBlocks` | syzygy/block_graph/block_builder.cc:353-373 | for every description that is not empty there is a new block that is as described, with the largest alignment of its basic blocks, as large as its data, and with the bytes and references of its layout; everything that was there is as it was |
| `Merge.ReplaceOriginal` | syzygy/block_graph/block_builder.cc:375-380 | outside references are redirected and the original is removed, if there is one; the references of the new blocks are untouched |
| `BuilderSpecs.BuilderPreservesControlFlow` | syzygy/block_graph/block_builder.cc:399-518 | a laid out order can be emitted, every successor is lowered, and the emitted bytes preserve control flow exactly when every second branch has room |
| `BuilderSpecs.SafeOrderLaysOutSafely` | syzygy/block_graph/block_builder.cc:620-765 | an order is safe in the subgraph exactly if its initial layout is safe |
| `BuilderSpecs.RelaxSettles` | syzygy/block_graph/block_builder.cc:767-846 | relaxing an initialized order lays it out, and all its branches fit if the order is safe |
| `ControlFlow.ExecutionFollowsSubgraph` | syzygy/block_graph/block_builder.cc:902-985 | if all branches fit, running a finished block from behind the instructions of a basic block, through branches and padding, gets to the start of the successor that the flags select, or out through the reference to it |
| `ControlFlow.ControlFlowPreservedIff` | syzygy/block_graph/block_builder.cc:399-518 | emitted branches do what the subgraph says for all flags exactly when every branch fits its encoding |
| `ControlFlow.BranchesCorrectIff` | syzygy/block_graph/block_builder.cc:399-518 | the same for the branches of one basic block, elided and turned ones included |
| `ControlFlow.BodyReferencesInImage` | syzygy/block_graph/block_builder.cc:542-618 | where a basic block's body is, the finished block has the references of the body and no others |
| `Emission.PaddingFallsThrough` | syzygy/block_graph/block_builder.cc:520-540 | running inserted NOPs gets behind them |
| `X86.BranchDecodes` | syzygy/assm/assembler_base_impl.h:343-371 | an emitted branch decodes to its condition and length, and to its destination exactly if the displacement fits |
| `X86.NopDecodes` | syzygy/assm/assembler_base_impl.h:514-602 | each NOP sequence decodes as one instruction of its length |
| `Conditions.InversionNegates` | syzygy/block_graph/basic_block.cc:605-618 | the inverse of a condition holds exactly when the condition does not, for all flags, and inverting twice gives the condition back |
| `LayoutTheorems.RelaxationPasses` | syzygy/block_graph/block_builder.cc:767-846 | one pass if no branch is manifested, otherwise at most two more passes than there are branches |
| `LayoutTheorems.RelaxIsStable` | syzygy/block_graph/block_builder.cc:771-845 | the result is placed, and another pass changes nothing |
| `LayoutTheorems.RelaxKeepsShape` | syzygy/block_graph/block_builder.cc:771-845 | only start offsets and sizes of the order change |
| `LayoutTheorems.RelaxedFitsIff` | syzygy/block_graph/block_builder.cc:767-846 | for all alignments the first branches fit, and the second ones exactly if they have room for what the first was kept larger by |
| `LayoutTheorems.SafeLayoutFits` | syzygy/block_graph/block_builder.cc:767-846 | all branches fit if every second branch within the block leads ahead, or nothing on the way to the first target is aligned |
| `LayoutTheorems.RelaxedFits` | syzygy/block_graph/block_builder.cc:767-846 | all branches fit if all alignments are 1 |
| `LayoutTheorems.RelaxedIsLeastFromFresh` | syzygy/block_graph/block_builder.cc:771-845 | with alignments 1 no consistent choice of sizes for the same order gives any successor a smaller size |
| `LayoutTheorems.FirstRequiredMonotone` | syzygy/block_graph/block_builder.cc:1120-1154 | if nothing on the way is aligned, the required size of a first branch never shrinks as sizes grow |
| `Counterexample.RelaxationCanFail` | syzygy/block_graph/block_builder.cc:818-827 | an order of valid basic blocks for which relaxation ends with a short branch that does not reach its target |
| `Counterexample.BuilderCanGoWrong` | syzygy/block_graph/block_builder.cc:818-827 | its subgraph is well formed, and the block emitted for it does not preserve control flow |
| `Findings.ResizeCanOverlap` | syzygy/block_graph/block_graph.cc:428-479 | an empty block within another is resized with success, and the address space is then inconsistent |
| `Findings.TransferCanStopHalfway` | syzygy/block_graph/block_graph.cc:1287-1328 | a failed transfer after which one of two references leads to the new block and the other to the old one |
| `Findings.RemovalCanRunPastEnd` | syzygy/block_graph/block_graph.cc:939-999 | an accepted removal that leaves eight bytes of data in a block of size six |
| `Findings.DistanceKeptIff` | syzygy/block_graph/block_builder.cc:1004-1036 | a redirected reference keeps the distance from base to offset exactly if it is direct |
| `Findings.ModeIsLost` | syzygy/ar/ar_writer.cc:336-376 | a header that is written and cannot be parsed |
| `Findings.SeekCanKeepIndex` | syzygy/ar/ar_reader.cc:320-337 | a reader that has sought its first file with success and has no next file |
| `BlockBuilder.MergeContext.InitializeBlockLayout` | syzygy/block_graph/block_builder.cc:620-765 | every basic block of the order gets its initial record, successors that fall through elided and the one behind a branch unconditional, and the block the largest alignment; other records stay |
| `BlockBuilder.MergeContext.InitializeSuccessors` | syzygy/block_graph/block_builder.cc:669-757 | a successor that leads to the next basic block is elided, and of two manifested ones the second is unconditional |
| `BlockBuilder.MergeContext.ComputeRequiredSuccessorSize` | syzygy/block_graph/block_builder.cc:1120-1154 | short exactly if the target is in the same block and the displacement fits a byte |
| `BlockBuilder.MergeContext.UpdateStartOffsets` | syzygy/block_graph/block_builder.cc:774-793 | every basic block starts behind the one in front, rounded up to its alignment |
| `BlockBuilder.MergeContext.ExpandSuccessors` | syzygy/block_graph/block_builder.cc:795-834 | every successor gets the larger of its size and the one required; reports whether any changed |
| `BlockBuilder.MergeContext.GenerateBlockLayout` | syzygy/block_graph/block_builder.cc:767-846 | the loop ends with the relaxed layout after as many passes as are counted, and the block has the size of the layout |
| `BlockBuilder.MergeContext.CopyReferences` | syzygy/block_graph/block_builder.cc:582-596 | the block gets the resolved references of the item, moved to where it is; nothing else changes |
| `BlockBuilder.MergeContext.CopyInstructions` | syzygy/block_graph/block_builder.cc:542-580 | the buffer gets the bytes of the instructions and the block their references |
| `BlockBuilder.MergeContext.InsertNops` | syzygy/block_graph/block_builder.cc:520-540 | the buffer gets NOPs of the given length and keeps what was in front |
| `BlockBuilder.MergeContext.AssembleSuccessors` | syzygy/block_graph/block_builder.cc:399-518 | the buffer gets the encoded branches of the manifested successors, and the block a reference at each operand |
| `BlockBuilder.MergeContext.EmitBasicBlock` | syzygy/block_graph/block_builder.cc:909-981 | padding, body and branches of one basic block, and its references |
| `BlockBuilder.MergeContext.PopulateBlock` | syzygy/block_graph/block_builder.cc:902-985 | the block has exactly the bytes and references of the whole order, and no other block changes |
| `BlockBuilder.MergeContext.CreateBlocks` | syzygy/block_graph/block_builder.cc:849-881 | for every description that is not empty, in order, a fresh block of its kind, section, attributes and name, with the largest alignment among it and its basic blocks, and initial records |
| `BlockBuilder.MaxIsDescribed` | syzygy/block_graph/block_builder.cc:627-629 | the alignment of a new block is at least that of its description and of each of its basic blocks, and equal to one of them |
| `BlockBuilder.MergeContext.LayOutBlocks` | syzygy/block_graph/block_builder.cc:882-900 | every order is laid out, laying out one does not disturb another, and nothing but size and data of the blocks changes |
| `BlockBuilder.MergeContext.PopulateBlocks` | syzygy/block_graph/block_builder.cc:987-1002 | every block is populated, and nothing else changes |
| `BlockBuilder.MergeContext.UpdateReferrers` | syzygy/block_graph/block_builder.cc:1004-1036 | exactly the recorded referrers of the basic block are directed to its start in the new block |
| `BlockBuilder.MergeContext.TransferReferrers` | syzygy/block_graph/block_builder.cc:375-380 | the same for all basic blocks |
| `BlockBuilder.MergeContext.RemoveOriginalBlock` | syzygy/block_graph/block_builder.cc:1038-1056 | the original is gone, if there was one, and every other block keeps its references |
| `GraphSpecs.MirrorIsUnique` | syzygy/block_graph/block_graph.cc:1125-1193 | referrer records are determined by the references |
| `BlockGraphs.BlockGraph.AddBlock` | syzygy/block_graph/block_graph.cc:326-334 | a block with a fresh id and nothing in it; the mirror is kept |
| `BlockGraphs.BlockGraph.RemoveBlock` | syzygy/block_graph/block_graph.cc:336-400 | removes exactly blocks without references and referrers |
| `BlockGraphs.BlockGraph.SetReference` | syzygy/block_graph/block_graph.cc:1125-1193 | one reference is set or replaced, the mirror is kept, and the result says whether it is new |
| `BlockGraphs.BlockGraph.RemoveReference` | syzygy/block_graph/block_graph.cc:1206-1219 | one reference is removed, if there is one, and the mirror is kept |
| `BlockGraphs.BlockGraph.RemoveAllReferences` | syzygy/block_graph/block_graph.cc:1221-1242 | all references of the block are removed and the mirror is kept |
| `BlockGraphs.BlockGraph.TransferReferrers` | syzygy/block_graph/block_graph.cc:1287-1328 | succeeds exactly if all moved references stay within the new block; then exactly the referrers to be moved lead to it, otherwise it stops at one that does not fit, with all in front of it in the same block redirected; the mirror is kept |
| `BlockGraphs.BlockGraph.ShiftReferences` | syzygy/block_graph/block_graph.cc:113-150 | references of the block move with their bytes and those to itself follow their targets |
| `BlockGraphs.BlockGraph.ShiftReferrers` | syzygy/block_graph/block_graph.cc:153-195 | references of other blocks to the block follow their targets |
| `OrderedMaps.ShiftOffsetItemMap` | syzygy/block_graph/block_graph.cc:75-111 | items at or behind the offset move by the distance, in place and in either direction, and none is lost |
| `BlockGraphs.BlockGraph.ResizeData` | syzygy/block_graph/block_graph.cc:1063-1096 | data is cut, or filled up with zeros |
| `BlockGraphs.BlockGraph.InsertData` | syzygy/block_graph/block_graph.cc:907-937 | the graph with the bytes inserted, mirror kept |
| `BlockGraphs.BlockGraph.RemoveData` | syzygy/block_graph/block_graph.cc:939-999 | succeeds exactly if no label, reference or target is in the removed range, inside the block or not; otherwise nothing changes |
| `BlockGraphs.BlockGraph.MoveBlockInto` | syzygy/block_graph/block_graph.cc:696-718 | a block's references and referrers are moved into another at an offset, leaving the block with neither |
| `GraphTheorems.InsertSplices` | syzygy/block_graph/block_graph.cc:907-937 | contents become prefix, zeros, suffix, whether data is allocated or not |
| `GraphTheorems.AllocatedAfterInsert` | syzygy/block_graph/block_graph.cc:907-937 | exactly how much data is allocated afterwards, as asked for or not |
| `GraphTheorems.RemoveSplices` | syzygy/block_graph/block_graph.cc:939-999 | contents become prefix and suffix |
| `GraphTheorems.RemoveSplicesIff` | syzygy/block_graph/block_graph.cc:939-999 | contents become what is outside the range exactly if the range is in the block |
| `GraphTheorems.InsertMovesLabels` | syzygy/block_graph/block_graph.cc:75-111 | each label moves with its byte and none appears in the gap |
| `GraphTheorems.RemoveMovesLabels` | syzygy/block_graph/block_graph.cc:75-111 | each label moves with its byte and none was in the gap |
| `GraphTheorems.InsertMovesReferences` | syzygy/block_graph/block_graph.cc:113-195 | each reference of any block moves with its source byte and its offset with the byte it leads to; the distance from base to offset, kind, size and block stay |
| `GraphTheorems.RemoveMovesReferences` | syzygy/block_graph/block_graph.cc:113-195 | the same for removal |
| `GraphTheorems.InsertKeepsAddressedByte` | syzygy/block_graph/block_graph.cc:113-195 | a direct reference addresses the same byte as before |
| `GraphTheorems.RemoveKeepsAddressedByte` | syzygy/block_graph/block_graph.cc:113-195 | a direct reference addresses the same byte as before |
| `GraphTheorems.RemoveUndoesInsert` | syzygy/block_graph/block_graph.cc:907-999 | an accepted removal of inserted bytes gives back the whole graph |
| `GraphTheorems.RemovalAcceptedIff` | syzygy/block_graph/block_graph.cc:939-999 | the removal is accepted exactly if no reference had its source or target straddle the spot |
| `GraphTheorems.TransferMoves` | syzygy/block_graph/block_graph.cc:1287-1328 | a transfer redirects exactly the references to the block, its own only if they are not to be skipped, moving offset and base alike; all others are as they were |
| `AddressSpaces.AddressSpace.InsertBlock` | syzygy/block_graph/block_graph.cc:481-552 | succeeds exactly if the block is empty or its range is free; the address space stays consistent |
| `AddressSpaces.AddressSpace.AddBlock` | syzygy/block_graph/block_graph.cc:407-426 | fails exactly if the range is not free, and then leaves no block behind |
| `AddressSpaces.AddressSpace.ResizeBlock` | syzygy/block_graph/block_graph.cc:428-479 | when it succeeds, and exactly when the address space is consistent afterwards |
| `AddressSpaces.AddressSpace.MergeIntersectingBlocks` | syzygy/block_graph/block_graph.cc:559-723 | the blocks that intersect the range become one, which covers them and the range and begins and ends where one of these does; it has the type, section, alignment and name of the first; every reference keeps its source and target address; bytes, attributes and each label of the new block are those the blocks bring; the merged blocks are gone and the address space is consistent |
| `MergeSteps.MergedDataOf` | syzygy/block_graph/block_graph.cc:618-630 | reading absent data as zero, the merged bytes are those of the blocks at their addresses and zero elsewhere |
| `MergeSteps.MergedAttributesOf` | syzygy/block_graph/block_graph.cc:603-635 | an attribute is kept if some block has it, a uniform one only if all have it |
| `MergeSteps.BytesStay` | syzygy/block_graph/block_graph.cc:618-630 | every byte of a merged block is at its address in the new one |
| `MergeSteps.LabelStays` | syzygy/block_graph/block_graph.cc:676-698 | a label that a block brings is in the new block, and is that very label unless an earlier block brings one to the same place |
| `MergeSteps.LabelsAreMerged` | syzygy/block_graph/block_graph.cc:676-698 | the new block has a label exactly where some block brings one, namely that of the first block to do so; a block that does not become code brings its name to its start |
| `MergeSteps.MergeKeepsAddresses` | syzygy/block_graph/block_graph.cc:676-720 | the same references, by absolute addresses, exist before and after |
| `Merging.RelocationKeepsAddresses` | syzygy/block_graph/block_graph.cc:696-710 | moving blocks into one at their addresses neither loses nor invents a reference between addresses, whichever blocks refer to which |
| `Decomposition.DecompositionPreservesControlFlow` | syzygy/block_graph/basic_block_decomposer.cc:336-470 | following the cuts from a cut visits the same instruction offsets as running the code, and ends in the same place, for all flags and lengths |
| `Decomposition.RunsAgree` | syzygy/block_graph/basic_block_decomposer.cc:938-996 | the same from every position in every cut |
| `Decomposition.CutsPartition` | syzygy/block_graph/basic_block_decomposer.cc:649-695 | every byte of the block is in exactly one cut |
| `Decomposition.CutSizeIsExact` | syzygy/block_graph/basic_block_decomposer.cc:649-695 | the size of a code cut equals its instructions plus the branch its successors stand for, which is sharper than the check in the code |
| `Decomposition.CutSuccessorsValid` | syzygy/block_graph/basic_block_decomposer.cc:697-752 | a cut has no successor, an unconditional one, or two with complementary conditions |
| `Decomposer.SplitInstructionListAt` | syzygy/block_graph/basic_block_decomposer.cc:108-126 | splits without loss at the offset, and refuses exactly when no instruction ends there |
| `Decomposer.BasicBlockDecomposer.InsertBasicBlockRange` | syzygy/block_graph/basic_block_decomposer.cc:848-936 | inserts exactly if the range is free, taking over the current instructions for code |
| `Decomposer.BasicBlockDecomposer.HandleInstruction` | syzygy/block_graph/basic_block_decomposer.cc:336-470 | keeps the invariant of the walk, and refuses exactly what cannot be represented |
| `Decomposer.BasicBlockDecomposer.EndCurrentBasicBlock` | syzygy/block_graph/basic_block_decomposer.cc:472-486 | the current instructions and successors become a cut that ends where the next one starts |
| `Decomposer.BasicBlockDecomposer.GetCodeRangeAndCreateDataBasicBlocks` | syzygy/block_graph/basic_block_decomposer.cc:488-543 | succeeds exactly if code comes before data; then there is a data cut exactly at every data label, and they tile everything behind the first one |
| `Decomposer.BasicBlockDecomposer.InitJumpTargets` | syzygy/block_graph/basic_block_decomposer.cc:311-334 | the bases of references into the code are jump targets |
| `Decomposer.BasicBlockDecomposer.ParseInstructions` | syzygy/block_graph/basic_block_decomposer.cc:545-582 | succeeds exactly if the code parses; then cuts tile the block, there is a data cut exactly at every data label, and the jump targets are exactly the bases of the references into the code and the targets of its branches; says whether an unsupported instruction was met |
| `Decomposer.BasicBlockDecomposer.SplitCodeBlocksAtBranchTargets` | syzygy/block_graph/basic_block_decomposer.cc:938-996 | every jump target starts a code cut, and the cuts still hold the code |
| `Decomposer.BasicBlockDecomposer.Disassemble` | syzygy/block_graph/basic_block_decomposer.cc:584-634 | succeeds exactly if labels and code allow; then the block is decomposed, every reference into the code leads to the start of a code cut, data cuts are exactly at the data labels, code cuts exactly at the start, at jump targets and behind what ends a basic block, and the instruction boundaries of the cuts are those of the code |
| `Decomposer.StartsAreExact` | syzygy/block_graph/basic_block_decomposer.cc:938-996 | when all jump targets have been split at, a cut starts exactly where the code, the labels and the references say |
| `Reachability.GetReachabilityMap` | syzygy/block_graph/basic_block_subgraph.cc:279-343 | marks exactly the basic blocks on a path of references and successors from one that is referenced from outside |
| `Serializer.SaveAndLoad` | syzygy/block_graph/block_graph_serializer.cc:82-171 | loading a saved graph gives the properties, ids, data, references and referrers back; names are lost exactly if strings are omitted, labels exactly if labels are, and with nothing omitted the graph itself comes back |
| `Serializer.BlockGraphSerializer.Save` | syzygy/block_graph/block_graph_serializer.cc:82-117 | the bytes of the whole graph |
| `Serializer.BlockGraphSerializer.Load` | syzygy/block_graph/block_graph_serializer.cc:119-171 | loads what was saved and consumes exactly that; on any other bytes it ends with references and referrers that mirror each other and with labels and references of kinds and sizes that there are, and succeeds only behind a supported head |
| `Serializer.BlockGraphSerializer.LoadHead` | syzygy/block_graph/block_graph_serializer.cc:119-152 | on any bytes, succeeds exactly if version, data mode and attributes are there and supported, and takes them over |
| `Serializer.BlockGraphSerializer.LoadBlockGraphProperties` | syzygy/block_graph/block_graph_serializer.cc:189-223 | sections, ids and image format come back |
| `Serializer.BlockGraphSerializer.LoadBlocks` | syzygy/block_graph/block_graph_serializer.cc:251-293 | all blocks come back, without their references |
| `Serializer.BlockGraphSerializer.LoadBlockGraphReferences` | syzygy/block_graph/block_graph_serializer.cc:311-326 | all references come back once all blocks are there |
| `Serializer.BlockGraphSerializer.LoadBlockProperties` | syzygy/block_graph/block_graph_serializer.cc:353-405 | the properties of a block come back, for every type that the check lets through |
| `Serializer.BlockGraphSerializer.LoadBlockLabels` | syzygy/block_graph/block_graph_serializer.cc:442-485 | the labels of a block come back, names only if not omitted |
| `Serializer.BlockGraphSerializer.LoadBlockData` | syzygy/block_graph/block_graph_serializer.cc:554-650 | the data of a block comes back |
| `Serializer.BlockGraphSerializer.LoadBlockReferences` | syzygy/block_graph/block_graph_serializer.cc:677-713 | the references of a block come back and the mirror is kept |
| `Serializer.BlockGraphSerializer.LoadReference` | syzygy/block_graph/block_graph_serializer.cc:743-782 | kind, size, target, offset and base come back; whatever the bytes, the kind and size are ones that there are and the target exists |
| `SerializerSpecs.NothingLost` | syzygy/block_graph/block_graph_serializer.cc:41-74 | with nothing omitted everything is kept |
| `SerializerSpecs.KeptIsOmitted` | syzygy/block_graph/block_graph_serializer.cc:41-74 | of each block exactly the names, if strings are omitted, and the labels, if labels are, are lost |
| `SerializerSpecs.KeptMirrored` | syzygy/block_graph/block_graph_serializer.cc:295-326 | what is kept of a mirrored graph is mirrored |
| `SerializerSpecs.MaskRestores` | syzygy/block_graph/block_graph_serializer.cc:328-405 | attributes survive as a bit mask that the loader accepts |
| `Archives.OutArchive.SaveUint32` | syzygy/block_graph/block_graph_serializer.cc:787-821 | one to five bytes that `LoadUint32` reads back: five bits of the value and the length in the first, the rest behind |
| `Archives.InArchive.LoadUint32` | syzygy/block_graph/block_graph_serializer.cc:824-859 | undoes saving, for every 32-bit value and whatever follows |
| `Archives.InArchive.LoadInt32` | syzygy/block_graph/block_graph_serializer.cc:864-897 | undoes saving, for every value of magnitude below 2^31 |
| `Operands.OperandDecodesIff` | syzygy/assm/assembler_base_impl.h:194-296 | an independent ModR/M and SIB decoder gets the register, base, index, scale and displacement back exactly if an 8-bit displacement is sign-consistent and the operand is not EBP with an index and no displacement |
| `Operands.EbpWithIndexIsLost` | syzygy/assm/assembler_base_impl.h:282-284 | base EBP with an index and no displacement does not decode to itself |
| `Operands.InstructionBuffer.EmitOperand` | syzygy/assm/assembler_base_impl.h:194-296 | the buffer gets the bytes of the operand, and the displacement's reference where its bytes are |
| `Operands.InstructionBuffer.Emit32BitDisplacement` | syzygy/assm/assembler_base_impl.h:318-331 | four bytes, lowest first, and the reference in front of them |
| `Labels.Label.Bind` | syzygy/assm/label_base.h:100-106 | succeeds exactly if every use is in reach; then every branch emitted to the label leads to where it is bound, modulo 2^32; every byte outside the displacements of the branches to this label is as it was, so branches to other bound labels still lead there |
| `Labels.Label.Finalize` | syzygy/assm/label_base.h:115-126 | patches the uses of this label only, up to the first one out of reach |
| `Labels.Label.Use` | syzygy/assm/label_base.h:108-113 | one more use |
| `Labels.Assembler.J` | syzygy/assm/assembler_base_impl.h:637-681 | fails exactly for a short branch requested to a bound label out of reach, and then emits nothing; otherwise what is appended decodes to a branch with the condition, of the chosen size, which leads to the label if that is bound, and all branches to bound labels still lead there |
| `Labels.Assembler.FinalizeLabel` | syzygy/assm/assembler_base_impl.h:1286-1309 | patches the displacement exactly if it is in reach |
| `Labels.Assembler.Output` | syzygy/assm/assembler_base_impl.h:1275-1283 | appending keeps what all branches do |
| `Labels.ResolvedLeads` | syzygy/assm/assembler_base_impl.h:1286-1309 | a patched branch decodes to the location, across the wrap at 2^32 too |
| `ArReaders.WriteAndRead` | syzygy/ar/ar_writer.cc:604-692 | reading a written archive gives the same names, modes, timestamps, contents and symbol map, in order |
| `ArReaders.ReadArchive` | syzygy/ar/ar_reader.cc:211-381 | the same for any file that holds such an archive; whatever the file, success means that it starts as an archive and that every symbol belongs to a file |
| `ArReaders.ArReader.Init` | syzygy/ar/ar_reader.cc:211-289 | symbol tables, offsets and names are read, and the cursor is at the first file; whatever the file, success means that it starts with the magic and a symbol table, that the offsets are inside and different, and that every symbol has a file |
| `ArReaders.ArReader.ExtractNext` | syzygy/ar/ar_reader.cc:345-381 | in any archive, succeeds exactly if the file at the cursor can be read and its name be found, and says what is extracted and where the cursor is then; in a written one it is the file that was written, and the cursor is at the next |
| `ArReaders.ArReader.ReadNextFile` | syzygy/ar/ar_reader.cc:405-444 | in any archive, succeeds exactly if there is a header, and contents if they are wanted; the cursor is behind them and their padding |
| `ArReaders.PrimaryTableLeads` | syzygy/ar/ar_writer.cc:401-445 | the table that the reader skips is right: the number for each symbol is the offset at which the file that defines it lies, and its name is in its place |
| `ArReaders.ArReader.SeekIndex` | syzygy/ar/ar_reader.cc:320-337 | fails exactly for an index that does not exist; the index is not updated if the cursor is already there, which in a written archive it is only if the index is right |
| `ArFiles.ArWriter.Write` | syzygy/ar/ar_writer.cc:604-692 | succeeds exactly if all fields fit; the image has the tables with the true offsets of the files, although they were written before those were known |
| `ArFiles.ArWriter.AddFile` | syzygy/ar/ar_writer.cc:527-567 | fails for an empty file or one without symbols and then changes nothing; otherwise file and definitions are recorded in order |
| `ArFiles.RewritePrimary` | syzygy/ar/ar_writer.cc:677-683 | writing the primary table again over the first one changes only its offsets |
| `ArFiles.FileAt` | syzygy/ar/ar_writer.cc:667-675 | every file is at the offset that the tables give |
| `ArFiles.AlignAndGetPosition` | syzygy/ar/ar_writer.cc:509-520 | the image is padded to an even position |
| `ArHeaders.HeaderParsesIff` | syzygy/ar/ar_reader.cc:73-94 | a header that fits its fields is read back exactly if its mode is below 2^31 |
| `ArHeaders.ModeParsesIff` | syzygy/ar/ar_reader.cc:42-71 | a printed mode is read back exactly if it is below 2^31 |
| `ArHeaders.ModeFitsIff` | syzygy/ar/ar_writer.cc:336-376 | a printed mode fits its field exactly if it is below 100,000,000 or above 2^32 - 10,000,000 |
| `ArHeaders.PopulateArFileHeader` | syzygy/ar/ar_writer.cc:336-376 | succeeds exactly if every field fits |
| `ArHeaders.ParseArFileHeader` | syzygy/ar/ar_reader.cc:73-94 | parses each field at its place, a blank number as all ones |
| `ArHeaders.ParseArNumber` | syzygy/ar/ar_reader.cc:42-71 | the number in the field without trailing blanks, if it is one |
| `ArHeaders.ArStringLength` | syzygy/ar/ar_reader.cc:31-37 | the length without trailing blanks |
| `ArHeaders.ShortNameTranslatesIff` | syzygy/ar/ar_reader.cc:446-484 | a short name comes back exactly if it is not empty and does not start with a slash |
| `ArHeaders.LongNameTranslates` | syzygy/ar/ar_reader.cc:446-484 | a long name comes back from the name table, wherever its entry is |
| `ArHeaders.TranslateFilename` | syzygy/ar/ar_reader.cc:446-484 | the name a header stands for, or failure |
| `ArTables.ParseSecondarySymbolTable` | syzygy/ar/ar_reader.cc:107-203 | reads every table: offsets in order without deleted files, files numbered anew, and of several symbols with one name the first; whatever the bytes, the offsets are inside the archive and symbols have names and files |
| `ArTables.ReadOffsets` | syzygy/ar/ar_reader.cc:141-167 | on any bytes, succeeds exactly if every offset is inside the archive or zero; zero offsets are left out and the others numbered in order |
| `ArTables.TableOfFirst` | syzygy/ar/ar_reader.cc:170-200 | a name maps to the file of the first symbol that has it |
| `ArTables.NoneRenumbered` | syzygy/ar/ar_reader.cc:141-167 | without deleted files the numbers stay as they are |
| `ArTables.ListSymbols` | syzygy/ar/ar_writer.cc:401-482 | every symbol once, sorted by name or by file and name |
| `ArTables.SecondaryContents` | syzygy/ar/ar_writer.cc:448-482 | the bytes of the secondary table |
| `ArTables.PrimaryContents` | syzygy/ar/ar_writer.cc:401-445 | the bytes of the primary table, numbers highest byte first |
| `ArSymbols.SymbolTable.UpdateSymbolTable` | syzygy/ar/ar_writer.cc:85-144 | keeps the table what the definitions so far make it: each name maps to its first strong definition, else its first weak one, and the weak table is the part without a strong one |
| `ArSymbols.StrongBeatsWeak` | syzygy/ar/ar_writer.cc:85-144 | a name is in the table exactly if some file defines it, and belongs to the first file that defines it strongly, or weakly if none does |
| `ArSymbols.OneMoreDefinition` | syzygy/ar/ar_writer.cc:85-144 | how the winner of every name changes with one more definition |

## Left out

Rewriting and basic blocks:

- Rewriting.Apply: the transform only arranges basic blocks, each exactly once; transforms that add, drop or change basic blocks are not modelled, and a block with unsupported instructions is refused rather than marked and skipped.
- Rewriting.RewritingPreservesRuns: instructions that are not branches are followed by their bytes and references, not by what they compute; an indirect jump or a return ends a run.
- Instruction decoding is a map from offsets to size, kind and target; the foreign decoder behind it is not modelled.
- Labels, source ranges, names and tags of basic blocks and instructions, and the marking of unreachable code as padding.
- Allocation failures in the builder and the clean-up after them.

Block graph and address space:

- Source ranges, padding in front of blocks, and ownership of data. Offsets and their sums are unbounded; the size of a block wraps around at 2^32 when more is removed than there is.
- AddressSpaces.AddressSpace.InsertBlock: the block is not yet in the address space, which the code asserts.
- AddressSpaces.AddressSpace.MergeIntersectingBlocks: the merged blocks are of one type and section and keep references and targets inside, as the code asserts.
- The iterators and look-ups of the address space and of its range map, which is modelled as an ordered list of disjoint ranges.

Serializer:

- Callbacks, and the modes that save no data or only owned data.
- Serializer.BlockGraphSerializer.LoadBlockReferences: a loaded reference of size zero fails the load where the code asserts, when the reference is set.
- Serializer.SaveAndLoad: padding in front of blocks and ownership of data are not saved; numbers must fit the variable-length encoding.

Assembler:

- Operands.InstructionBuffer.EmitOperand: the register field is below 8, although the code asserts only that it is at most 8.
- Labels.Label.Bind: a label is bound once, and the serializer behind the assembler does patch the addressed bytes.
- Labels.Assembler.J: conditional branches; the unconditional ones go through the same label code.
- Instructions other than branches, NOPs and memory operands.

Archives:

- Symbol extraction from object files: the definitions of each file are given.
- File access and its failures: the archive is a sequence of bytes with a cursor. Extracting by index and the file index of the reader are left out.
- ArReaders.WriteAndRead: the image is below 2^32 bytes with fewer than 65535 files, names are not empty, free of NUL and do not start with a slash, and modes are below 2^31.
- ArReaders.ArReader.Init: two files at one offset, on which the code aborts, are a failure, and so is a name that runs past its table.
- ArHeaders.ParseArNumber: signs, and numbers beyond 64 bits.

The application framework, other transforms, the orderer, PE and PDB parsing, instrumentation and the run-time libraries
are outside this project.
