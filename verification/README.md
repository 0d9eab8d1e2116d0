# Verification of the engine's cache, prefill driver and small state machines

A Dafny model of the parts of the engine (`engine/src`) that are index arithmetic, loops and mutable
state, with proofs of what they promise:

* the KV cell store (`KvCells`, `SlotSearch`, `SlotFacts`, `SeqEdits`, `EditFacts`, `Placement`, `KvStore`, `KvCache`):
  a ring of cells holding a position and a set of owning sequences, the slot search that starts at a
  moving head, placement with sliding-window eviction, and the sequence edits;
* what runs of that store keep (`AppendRuns`, `FirstFit`, `Prepare`, `PrepareFacts`, `PrepareHeads`,
  `BatchMin`, `Rewind`): eviction never changes what attention sees, the search is first fit, planning
  leaves no trace, a failed ubatch is taken back;
* its views (`KqMask`, `KvLayout`, `Rows`, `Hadamard`): the incremental attention mask, the two tensor layouts,
  the Walsh-Hadamard rotation;
* its checkpoints (`Checkpoint`, `CheckpointRead`, `CheckpointFacts`, `CheckpointRoundTrip`, `CheckpointWhole`,
  `CheckpointWindow`, `CheckpointDamage`, `CheckpointFormat`, `CheckpointBytes`, `CheckpointBuffer`, `Scatter`,
  `HostIo`): dump, restore, dump again, what a windowed dump is good for, and the bytes of it all;
* the layer-major prefill (`LayerMajor`, `LayerTrace`, `S2Protocol`, `Inject`): the same result as the ubatch-major loop,
  and a failure protocol with one wipe, the early one of a preparation, that can meet a running kernel;
* output rows (`RowSwaps`, `OutputReorder`, `EmbeddingStride`), token-cycle accounting (`Observe`, `ObserveFacts`) and the
  renormalised expert mixture (`Mixture`).

Code that changes things step by step is modelled by classes and methods with the same fields, loops and
branches; each method is proved to do what a specification function says, and the theorems are about those
functions. C++ exceptions and aborted calls are values of an environment that may strike at any point.
`dafny verify dfyconfig.toml` checks the whole project.

## What the proofs found

* The unwinding of `prepare` takes the old head by block number instead of by stream
  (llama-kv-cache.cpp:804). As long as no two streams have the same head, the heads come back exactly if the first
  block each stream gets carries the stream's own number (`PrepareHeads.BlocksDecide`).
* Under a sliding window `prepare` can lose a cell that the purge dropped and the recovery stack never saw
  (`PrepareFacts.PlanTrace` says exactly which).
* `seq_add` may move the head past a free cell: it does exactly if a free cell lies below the first cell that it moves
  below position zero (`FirstFit.ShiftKeepsHead`). Only the other shifts belong to the first-fit runs.
* The rewind after a failed ubatch looks only at each token's first sequence (llama-context.cpp:2202): shared
  tokens stay with their other owners, and cells hidden by a window that it overwrote stay lost
  (`Rewind.RewindRestores`).
* Embeddings are written and read every `n_embd_out` elements but reordered every `n_embd`
  (`EmbeddingStride.StrideMustAgree`). With `n_embd` greater, the swap of a late row does not fit the embeddings and
  exchanges elements of whatever lies behind them (`EmbeddingStride.NeighboursSpared`).
* A sequence id at or above `n_seq_max` is dumped without owners and cannot be restored; a dump of no cells
  leaves the target's own cells in place, for one sequence and for a whole cache.
* The comment at llama-kv-cache.cpp:2326 says 2-D positions cannot be restored yet; `apply_ubatch` does restore
  them, and the model follows the code.
* The layer-major driver treats a refused preparation as having changed nothing, but a preparation that cannot
  put its snapshot back wipes the caches (llama-memplan.cpp:1018-1034). That wipe is not preceded by a wait. The
  ordinary loop leaves its kernels running (llama-context.cpp:2402), so two calls are enough for a wipe under a
  kernel: over any run of calls, that happens exactly if such a wipe meets a running kernel with no banks held from
  before (`S2Protocol.Driver.Serve`, `S2Protocol.BusyMeans`).
* Restoring a sequence and dumping it again does not always give the same stream. If the search for free cells has to
  come round, the restored cells lie in another order than they were dumped in, and the second dump lists them in
  that order. With different positions the streams agree exactly if the free cells are taken from one side of the
  place where the search starts; a target reached by one `seq_add` shows that it fails
  (`CheckpointRoundTrip.RoundTrip`, `CheckpointRoundTrip.RoundTripCanFail`).
* An exception between the allocation of the banks and the arming of the guard leaves the banks allocated until
  the next call; no other way out does. `S2Protocol.Driver.DecodeLayermajor` states this as an if-and-only-if, over
  the outcome and over the environment.
* An accounting stage that is begun anew before it is rotated, as after a failed graph, takes its events with it. The
  reports are right exactly if no reported window contains such an event (`Observe.ReportsCoverTheirWindows`).
* A whole-cache restore leaves a cell without owners exactly if none of its owners was below `n_seq_max` of the
  writer (`CheckpointWhole.OwnerlessAfterwards`); such cells are occupied until the cache is cleared or the position
  is removed for every sequence.

## Model

| member | source | states |
|---|---|---|
| SlotSearch.FindSlot | engine/src/llama-kv-cache.cpp:964-1093 | The wrapping search ends. Scattered mode returns the first n usable cells of the ring order that starts at the head, or nothing; contiguous mode returns n consecutive usable cells, or nothing exactly when no such run exists anywhere |
| SlotSearch.TestCells | engine/src/llama-kv-cache.cpp:1030-1068 | The inner loop over one candidate position reports exactly which tested cells were usable and stops at the first bad one in contiguous mode |
| SlotFacts.SlotSound | engine/src/llama-kv-cache.cpp:964-1093 | A found slot has one distinct, usable cell per token, and the scattered search fails exactly when fewer cells are usable than there are tokens |
| SlotFacts.SlotIsFirstFit | engine/src/llama-kv-cache.cpp:997-1082 | With no free cell below the head, the slot is the n lowest free cells in ascending order, though the search starts at the head |
| SlotFacts.FirstFitUnique | engine/src/llama-kv-cache.cpp:997-1082 | There is only one first-fit answer |
| SlotFacts.UsableMeans | engine/src/llama-kv-cache.cpp:1034-1060 | A cell may be overwritten exactly if it is free, or if it has one owner and the window hides it from every query behind that owner's greatest position |
| SlotFacts.StartsBelow | engine/src/llama-kv-cache.cpp:1001-1005 | The search goes back to cell 0 exactly if the free cells below the head outnumber the occupied ones from it on by more than twice the number of tokens; else it begins at the head |
| SeqEdits.RemoveSeq | engine/src/llama-kv-cache.cpp:381-447 | Removing a sequence over a range drops that owner from the cells in range, frees those left without owner, and reports the first freed cell |
| SeqEdits.RemoveAny | engine/src/llama-kv-cache.cpp:414-443 | Removing every sequence over a range frees the cells in range |
| SeqEdits.KeepSeq | engine/src/llama-kv-cache.cpp:541-566 | Keeping one sequence drops all other owners |
| SeqEdits.CopySeq | engine/src/llama-kv-cache.cpp:449-469 | Copying within a stream adds the new owner to the source's cells in range and touches nothing else |
| SeqEdits.ShiftSeq | engine/src/llama-kv-cache.cpp:568-616 | Shifting moves the positions in range that the sequence owns and frees what falls below zero; the head goes to the first freed cell, or to 0 |
| SeqEdits.FirstFreedIs | engine/src/llama-kv-cache.cpp:392-411 | What the edits report as the first freed cell is the lowest cell that was occupied before and is free now |
| EditFacts.RemovedPresent | engine/src/llama-kv-cache.cpp:392-411 | A removal takes the positions in range from its sequence, and no position from any other |
| EditFacts.RemovedAnyPresent | engine/src/llama-kv-cache.cpp:414-443 | Removing every sequence takes the positions in range from all of them, shared cells included, and no others |
| EditFacts.KeptPresent | engine/src/llama-kv-cache.cpp:541-566 | The kept sequence holds what it held, the others nothing |
| EditFacts.CopiedPresent | engine/src/llama-kv-cache.cpp:473-481 | After a copy the destination holds its own positions and the source's in range; every other sequence, the source too, holds what it held |
| EditFacts.ShiftedPresent | engine/src/llama-kv-cache.cpp:568-616 | After a shift the sequence holds the positions out of range and the moved ones that are not negative; another sequence's positions move exactly in the cells it shares |
| EditFacts.RemovedFree | engine/src/llama-kv-cache.cpp:392-411 | A removal frees exactly the cells in range that the sequence owned alone; what stays occupied keeps position, shift and coordinates |
| EditFacts.KeptFree | engine/src/llama-kv-cache.cpp:541-566 | Keeping one sequence frees exactly the cells that others own without it |
| EditFacts.ShiftKeepsWritten | engine/src/llama-kv-cache.cpp:594-615 | Position less noted shift, where the row was computed, stays the same through a shift, with owners and coordinates |
| EditFacts.PulledTo | engine/src/llama-kv-cache.cpp:392-447 | The head after a removal is the lowest cell freed below it, if there is one |
| KvCache.Cache.SeqRm | engine/src/llama-kv-cache.cpp:381-447 | The class method, with negative bounds standing for open ends, and the head pulled back to the first freed cell only if that lies below it |
| KvCache.Cache.SeqKeep | engine/src/llama-kv-cache.cpp:541-566 | The class method, head included |
| KvCache.Cache.SeqCp | engine/src/llama-kv-cache.cpp:449-469 | The class method; nothing happens for equal ids |
| KvCache.Cache.SeqAdd | engine/src/llama-kv-cache.cpp:568-616 | The class method, including the raised head |
| KvCache.Cache.Clear | engine/src/llama-kv-cache.cpp:368-379 | Every cell free and the head at 0 |
| Placement.PlaceTokens | engine/src/llama-kv-cache.cpp:1101-1143 | The placement loop writes each token to its cell and records, per sequence, the greatest position overwritten |
| Placement.PlacedAt | engine/src/llama-kv-cache.cpp:1101-1145 | Each slot cell holds its token and every other cell is unchanged |
| EditFacts.NewIsWritten | engine/src/llama-kv-cache.cpp:1101-1143 | A placed cell carries no shift and belongs to exactly the sequences of its token |
| EditFacts.SlotComesLast | engine/src/llama-kv-cache.cpp:1165-1170 | The next search begins right behind the slot filled last, so that it meets the cell written last after all others |
| KvCache.Cache.ApplyUbatch | engine/src/llama-kv-cache.cpp:1095-1171 | Placement, purge of what lies at or below an overwritten position of its sequence, head behind the slot: the cells and the head are exactly those of the specification |
| KvCache.Cache.Purge | engine/src/llama-kv-cache.cpp:1145-1163 | The purge loop, as one seq_rm per sequence with an overwritten cell |
| KvStore.PurgeStep | engine/src/llama-kv-cache.cpp:1151-1162 | Purging sequence by sequence through seq_rm is the same as dropping owners cell by cell |
| KvCache.Cache.MemplanRestore | engine/src/llama-kv-cache.cpp:1186-1195 | A snapshot brings back every cell and the head |
| AppendRuns.AttentionUnchanged | engine/src/llama-kv-cache.cpp:1034-1163 | After any step of any append-only run, under any window, a query above its sequence's old maximum sees exactly the keys an unbounded cache would show it |
| AppendRuns.StepFaithful | engine/src/llama-kv-cache.cpp:1095-1163 | One step keeps the correspondence with the unbounded cache |
| AppendRuns.ApplyKeepsNoHoles | engine/src/llama-kv-cache.cpp:1101-1163 | Placement leaves no sequence with a missing position between two present ones, even one whose cells another sequence's tokens overwrote |
| AppendRuns.RunHasNoHoles | engine/src/llama-kv-cache.cpp:1101-1163 | In every append-only run, if what was sent of a sequence so far has no missing position, what the bounded cache holds of it has none either, whatever was evicted |
| AppendRuns.FullHasNoHoles | engine/src/llama-kv-cache.cpp:1101-1145 | The unbounded cache has no missing position exactly if none was left out in sending |
| AppendRuns.ConsecutiveRunHasNoHoles | engine/src/llama-kv-cache.cpp:1101-1163 | So it is when every ubatch carries on a sequence directly behind the last position sent of it, which a caller sees from the batches alone |
| AppendRuns.FoundIsUsable | engine/src/llama-kv-cache.cpp:1034-1060 | What find_slot returns is a slot of the kind the run theorems assume |
| FirstFit.RunGood | engine/src/llama-kv-cache.cpp:368-447 | In every state reached by clear, seq_rm, seq_keep, seq_cp, prepare, decode, any restore and any seq_add that meets the condition of ShiftKeepsHead, no free cell lies below the head |
| FirstFit.SearchIsFirstFit | engine/src/llama-kv-cache.cpp:997-1082 | Hence in every such state find_slot answers like a headless first-fit scan, and fails exactly when too few cells are free |
| FirstFit.ShiftKeepsHead | engine/src/llama-kv-cache.cpp:594-615 | seq_add keeps the head below the free cells if and only if, beforehand, no free cell lies below the lowest cell it moves below position zero, or it moves none there |
| FirstFit.FirstOutIsFreed | engine/src/llama-kv-cache.cpp:594-615 | The cell the head goes to is the lowest one in range that the sequence owns and whose shifted position is negative |
| FirstFit.ShiftCanSkipFreeCells | engine/src/llama-kv-cache.cpp:615 | A cache where seq_add moves the head past a free cell |
| Prepare.PrepareBatch | engine/src/llama-kv-cache.cpp:749-813 | The loop with its recovery stack finds the specified slots and leaves the specified state, whether or not the batch fits, under any window |
| PrepareFacts.PlanLeavesNoTrace | engine/src/llama-kv-cache.cpp:749-813 | Without a window prepare leaves cells and head exactly as found, on success and on failure |
| PrepareFacts.PlanTrace | engine/src/llama-kv-cache.cpp:749-813 | Under any window: the head is always restored, and a cell is restored if and only if no ubatch purges it before one has claimed it |
| PrepareFacts.PurgeTakes | engine/src/llama-kv-cache.cpp:1145-1163 | A ubatch purges a cell exactly if its slot held a position at or above the cell's, of a sequence that owns the cell |
| PrepareFacts.WindowedPlanCanLose | engine/src/llama-kv-cache.cpp:795-806 | A cache whose windowed prepare loses a cell |
| PrepareFacts.PlanReplays | engine/src/llama-kv-cache.cpp:2613-2627 | Applying the plan in order meets, at each point, the very slot find_slot would choose, and without a window each slot is empty at that point |
| PrepareFacts.PlanSlotsDisjoint | engine/src/llama-kv-cache.cpp:749-813 | Without a window every planned cell is free beforehand, and slots of different ubatches share no cell |
| PrepareHeads.HeadsRestored | engine/src/llama-kv-cache.cpp:795-806 | With several streams: the heads come back if and only if, for every stream that got a block, the head noted under the block's number equals the stream's own |
| PrepareHeads.BlocksInPlaceRestore | engine/src/llama-kv-cache.cpp:795-806 | They do, whatever they are, when the first block each stream gets carries the stream's own number, as always with one stream |
| PrepareHeads.BlocksDecide | engine/src/llama-kv-cache.cpp:795-806 | As long as no two streams have the same head, that is also the only way they come back |
| PrepareHeads.SecondStreamLosesItsHead | engine/src/llama-kv-cache.cpp:804 | A batch for stream 1 alone leaves it with stream 0's head |
| BatchMin.LowestPositions | engine/src/llama-context.cpp:2194-2205 | The lowest position of each sequence over the tokens that have it as their first sequence |
| Rewind.RewindFailed | engine/src/llama-context.cpp:2194-2215 | The failure branch removes, per sequence, everything from that position on |
| Rewind.RewindRestores | engine/src/llama-context.cpp:2194-2215 | The cells are those from before the failed ubatch if and only if its slot was free and every sequence of every token is the first sequence of a token no later in position |
| Rewind.SingleSeqRewind | engine/src/llama-context.cpp:2194-2215 | So it is for every batch of single-sequence tokens on a cache without a window |
| Rewind.SharedTokenSurvives | engine/src/llama-context.cpp:2201-2205 | A token shared by two sequences is not taken back from the second |
| KqMask.SetInputKqMask | engine/src/llama-kv-cache.cpp:1604-1751 | The incremental mask equals the plain per-token, per-cell mask for every batch, causal or not, any window, 1-D and 2-D positions, with and without position bias |
| KqMask.MaskRow | engine/src/llama-kv-cache.cpp:1659-1749 | One row: computed in full while the near cells are recorded, or corrected only at the recorded cells of a copied row |
| KqMask.FarIsSame | engine/src/llama-kv-cache.cpp:1706-1740 | A cell farther below the batch than the window plus 32 has the same entry for all tokens of its sequence |
| KqMask.MaskEntry | engine/src/llama-kv-cache.cpp:1637-1749 | The entry of token i and cell j in the flat array |
| KqMask.MaskShowsVisible | engine/src/llama-kv-cache.cpp:1604-1751 | When the columns cover all occupied cells, the unmasked columns of a causal query are exactly the visible positions |
| KqMask.MaskShowsAll | engine/src/llama-kv-cache.cpp:1704-1719 | Without a causal mask the unmasked columns are exactly the positions of the sequence that the window does not hide, later ones included |
| KqMask.MaskIn2d | engine/src/llama-kv-cache.cpp:1711-1727 | A 2-D causal query sees exactly what comes no later than itself by position, then row, then column, and is not hidden; so of equal positions it loses those in a later row, or farther right in its own |
| KqMask.BiasIsDistance | engine/src/llama-kv-cache.cpp:1739-1743 | A kept entry is the negated distance with position bias, whichever side the key lies on, and zero without |
| KqMask.BiasFalls | engine/src/llama-kv-cache.cpp:1739-1743 | With position bias kept entries are at most zero and fall by one per position of distance |
| KvLayout.RowAddrInjective | engine/src/llama-kv-cache.cpp:1316-1334 | Different streams, cells or dimensions never share an element, and all lie inside the tensor (keys and plain values) |
| KvLayout.LineAddrInjective | engine/src/llama-kv-cache.cpp:1336-1366 | The same for transposed values |
| KvLayout.ReadsWhatWasWritten | engine/src/llama-kv-cache.cpp:1316-1366 | The element written for a cell is the one the attention views and the checkpoint dump read, in both layouts |
| KvLayout.SetInputRowIdxs | engine/src/llama-kv-cache.cpp:1526-1540 | The destination rows of keys and plain values, for all blocks and tokens |
| KvLayout.SetInputLineIdxs | engine/src/llama-kv-cache.cpp:1542-1573 | The destination elements of transposed values, for all blocks, tokens and dimensions |
| KvLayout.RowDestIsAddr | engine/src/llama-kv-cache.cpp:1526-1557 | A destination row addresses the cell of its token |
| KvLayout.LineDestIsAddr | engine/src/llama-kv-cache.cpp:1558-1573 | A destination element addresses its dimension of the cell of its token |
| KvLayout.GetNKv | engine/src/llama-kv-cache.cpp:1300-1314 | The column count covers every occupied cell of every stream, is padded and never beyond the cells there are; one padding step less would miss an occupied cell or fall below the least count |
| Checkpoint.FindRanges | engine/src/llama-kv-cache.cpp:2043-2086 | The ranges expand to exactly the dumped cells, in order, and the count is theirs |
| CheckpointWindow.DumpShowsVisible | engine/src/llama-kv-cache.cpp:2057-2062 | Under any window, what a query from the sequence's greatest position on sees is exactly what is dumped of it and not hidden from that query: no key it could need is left out |
| CheckpointWindow.DumpedIsVisible | engine/src/llama-kv-cache.cpp:2057-2062 | What is dumped is exactly what the sequence's own last token sees, and without a window all of the sequence |
| CheckpointWindow.RestoredIsDumped | engine/src/llama-kv-cache.cpp:2030-2560 | After a restore that succeeds the target holds of the sequence exactly the dumped positions, under any window of source and target |
| CheckpointWindow.RestoredSeesSame | engine/src/llama-kv-cache.cpp:2030-2560 | So every query from the source's greatest position on sees exactly the keys the source would show it |
| Checkpoint.StateWrite | engine/src/llama-kv-cache.cpp:2030-2273 | The written stream is the specified dump: counts, metadata and tensor rows, keys then values, in both value layouts |
| CheckpointBytes.DumpInBytes | engine/src/llama-kv-cache.cpp:2030-2273 | The calls, one per header field and one per range of rows with its tensor, offset and size, leave exactly the encoded dump in the byte stream, for any layout of the header fields |
| CheckpointBytes.RowsInLine | engine/src/llama-kv-cache.cpp:2202-2207 | A range of rows stands in its tensor at the offset and with the size that are passed |
| CheckpointFormat.PlainExample | engine/src/llama-kv-cache.cpp:2030-2273 | The checkpoint of one cell in one layer, field by field, with plain values |
| CheckpointFormat.TransposedExample | engine/src/llama-kv-cache.cpp:2030-2273 | The same with 2-D coordinates, row before the owner, and transposed values |
| CheckpointFormat.LeReads | engine/src/llama-kv-cache.cpp:2030-2273 | A number written in w bytes reads back up to multiples of 256 to the w, so header fields that fit 32 or 64 bits read back as themselves |
| CheckpointBuffer.SaveState | engine/src/llama-kv-cache.cpp:2030-2273 | Saving into a host buffer succeeds exactly if the encoded dump fits; then the buffer begins with it, fields lowest byte first, and is untouched behind |
| CheckpointBuffer.SameBytesAgain | engine/src/llama-kv-cache.cpp:2030-2560 | A round trip of one sequence that keeps the order leaves the same bytes again |
| CheckpointBuffer.SameBytesOfWhole | engine/src/llama-kv-cache.cpp:2030-2560 | So does the round trip of a whole cache through any cache with room |
| CheckpointRead.StateReadSeq | engine/src/llama-kv-cache.cpp:2100-2341 | Reading one sequence yields the specified outcome, cells and rows, including every rejected stream |
| CheckpointDamage.AnyStreamSparesOthers | engine/src/llama-kv-cache.cpp:2100-2341 | Whatever is in the stream, also if nobody wrote it or it breaks off, reading one sequence into a cache without a window changes no cell for any other sequence, and a rejected stream leaves nothing of the one read |
| CheckpointRead.ReadRows | engine/src/llama-kv-cache.cpp:2444-2455 | The contiguous block copy and the cell-by-cell path give the same rows |
| CheckpointRoundTrip.RoundTrip | engine/src/llama-kv-cache.cpp:2030-2560 | A dump of at least one cell that fits is restored into any target, with or without a window. Dumping again reproduces the stream item by item, in both value layouts, if the search takes its cells from one side of its starting place, and only then unless two dumped cells have the same position |
| CheckpointRoundTrip.GoodIsInOrder | engine/src/llama-kv-cache.cpp:964-1093 | Without a window, a target with no free cell below its head is one where the streams agree |
| CheckpointRoundTrip.RoundTripCanFail | engine/src/llama-kv-cache.cpp:2030-2560 | A three-cell target with its head on the last cell gives back two cells in the wrong order |
| CheckpointRoundTrip.ShiftedThere | engine/src/llama-kv-cache.cpp:568-616 | One seq_add leads from a cache with no free cell below its head to that target |
| SlotFacts.SlotAscends | engine/src/llama-kv-cache.cpp:964-1093 | Under any window a slot is in ascending order exactly if the usable cells from the start of the search on suffice or there are none |
| CheckpointRoundTrip.RestoreOutcome | engine/src/llama-kv-cache.cpp:2275-2341 | A dump of at least one cell is restored if and only if the sequence id is one the source writes owners for and enough cells are usable; otherwise the target loses that sequence and nothing else, and no tensor changes |
| CheckpointRoundTrip.CellsAfter | engine/src/llama-kv-cache.cpp:2275-2341 | Under any window a cell changes for the other sequences if and only if it is occupied by them and in the slot, or out of the slot and purged after it |
| CheckpointRoundTrip.OthersKeepCells | engine/src/llama-kv-cache.cpp:2275-2341 | Whatever comes of a restore into a cache without a window, done, refused or of an empty dump, no other sequence's ownership or metadata changes |
| CheckpointRoundTrip.OthersKeepRows | engine/src/llama-kv-cache.cpp:2394-2560 | Nor does, under any window, a tensor row of a cell that others own, unless the restore overwrites or purges the cell |
| CheckpointRoundTrip.OwnerlessRejected | engine/src/llama-kv-cache.cpp:2143-2172 | A sequence id at or above n_seq_max is dumped without owners, which the reader refuses |
| CheckpointRoundTrip.EmptyDumpChangesNothing | engine/src/llama-kv-cache.cpp:2100-2141 | Restoring a dump of no cells changes nothing, so the second dump agrees if and only if there was nothing of the sequence to dump in the target |
| CheckpointFacts.ReadsTensors | engine/src/llama-kv-cache.cpp:2394-2560 | Reading a dumped tensor section moves exactly the dumped rows into the slot |
| CheckpointFacts.RedumpsTensors | engine/src/llama-kv-cache.cpp:2176-2273 | Dumping the slot afterwards gives the section that was read |
| CheckpointWhole.StateReadWhole | engine/src/llama-kv-cache.cpp:2100-2141 | Reading a whole cache yields the specified outcome, cells, head and rows; owners stay within the known sequences when the writer's did |
| CheckpointWhole.WholeRestored | engine/src/llama-kv-cache.cpp:2341-2390 | Whatever the target held, exactly the occupied cells arrive, packed from the front, with head 0; only lack of room prevents it, and then the target is cleared |
| CheckpointWhole.RestoredCells | engine/src/llama-kv-cache.cpp:2341-2390 | Cell by cell: the dumped ones in their order with their positions and saved owners, moved by nothing, the others free |
| CheckpointWhole.WholeRoundTrip | engine/src/llama-kv-cache.cpp:2030-2560 | Writing a whole cache with an occupied cell, restoring it into any cache with room and writing it again gives the same stream, in both value layouts |
| CheckpointWhole.OwnerlessAfterwards | engine/src/llama-kv-cache.cpp:2143-2172 | After a restore a cell is occupied and belongs to nobody exactly if it holds a dumped cell none of whose owners the writer saved |
| CheckpointWhole.EmptyCacheRestoresNothing | engine/src/llama-kv-cache.cpp:2117-2119 | The dump of an empty cache changes nothing, so the second dump agrees if and only if the target was empty |
| HostIo.CountBytes | engine/src/llama-context-moe.h:73-98 | The dry run counts exactly the bytes of the stream, or all but the tensor bytes |
| HostIo.HostWriter.Write | engine/src/llama-context-moe.h:111-119 | Plain bytes are put at the writing place, everything else in the buffer staying as it is, or nothing at all is written when they do not fit |
| HostIo.HostWriter.WriteTensor | engine/src/llama-context-moe.h:121-132 | A tensor stretch is noted with its place, or nothing is when it does not fit |
| HostIo.HostWriter.Finish | engine/src/llama-context-moe.h:104-109 | After destruction the buffer holds the stream of all calls, tensors as they are then; bytes behind it are untouched |
| HostIo.HostReader.Read | engine/src/llama-context-moe.h:163-171 | Plain bytes are the next of the stream, or the read fails and changes nothing |
| HostIo.HostReader.Finish | engine/src/llama-context-moe.h:156-161 | At destruction every noted stretch reaches its tensor, even when a later read had failed |
| HostIo.ReadingRestores | engine/src/llama-context-moe.h:99-201 | Reading back what was written restores every written place of every tensor and no other, overlaps included |
| HostIo.SameSizesSameCalls | engine/src/llama-context-moe.h:99-201 | A reader that asks for the written sizes gets the written bytes |
| HostIo.TensorBytesAreNoted | engine/src/llama-context-moe.h:73-98 | The tensor bytes that are left out of the count are those of the stretches noted for later |
| Hadamard.GenHadamard | engine/src/llama-kv-cache.cpp:24-56 | The doubling loops fill the whole n*n array with c times the sign (-1) to the number of bits row and column share |
| Hadamard.SignsAreOrthogonal | engine/src/llama-kv-cache.cpp:22-51 | For every power of two n the sign matrix times itself is n times the identity |
| Hadamard.RotationIsInvolution | engine/src/llama-kv-cache.cpp:22-51 | The filled matrix is symmetric, and its own inverse when c*c*n = 1 |
| LayerMajor.UbatchMajor | engine/src/llama-context.cpp:2168-2349 | Ubatch by ubatch: final metadata, layer states and logits buffer are those of the dependency grid |
| LayerMajor.LayerByLayer | engine/src/llama-context-s2.cpp:802-944 | Layer by layer through two alternating banks: succeeds exactly when every ubatch fits its slot (or there is one layer), and then leaves the grid's states and logits |
| LayerMajor.ProcessRange | engine/src/llama-context-s2.cpp:414-575 | One layer of one ubatch reads its slot of one bank and fills its slot of the other; the slots before stay |
| LayerMajor.ParkKeeps | engine/src/llama-context-s2.cpp:324-339 | A slot written at the fixed stride leaves the earlier slots alone |
| LayerMajor.Freeze | engine/src/llama-memplan.cpp:631-1051 | The captured views are what each ubatch sees once it and its predecessors are placed |
| LayerMajor.Emit | engine/src/llama-context-s2.cpp:906-939 | Each ubatch's logits go right behind those of its predecessors |
| LayerMajor.BufferAt | engine/src/llama-context-s2.cpp:913-935 | Row k of the finished buffer is row k - Before(i) of the ubatch whose block covers it |
| LayerMajor.OrdersAgree | engine/src/llama-context-s2.cpp:847-944 | Both drivers on the same input leave the same metadata, layer states and logits, whatever the layers compute |
| LayerTrace.SeesItself | engine/src/llama-context.cpp:1521 | In a net that writes down every call, the graph of a ubatch sees what was in the memory, then the ubatches up to and including its own, and no later one |
| LayerTrace.GridRecorded | engine/src/llama-context-s2.cpp:847-944 | There, layer l has met the ubatches one after the other, each with rows that passed the embedding and all layers below, and in the state its predecessors left; the rows of a ubatch have met the embedding, then the layers one after the other |
| LayerTrace.LogitsRecorded | engine/src/llama-context-s2.cpp:906-939 | There, the logits of a ubatch come of its own rows after the last layer |
| LayerTrace.OutputsAre | engine/src/llama-context.cpp:2176-2187 | A ubatch puts out a row per token if all are asked for, else one per raised flag |
| LayerTrace.FitsItsSlot | engine/src/llama-context-s2.cpp:324-339 | A ubatch fits its slot exactly if it has rows and they end before the next slot begins |
| S2Protocol.Driver.DecodeLayermajor | engine/src/llama-context-s2.cpp:690-1006 | Over every environment the result is known exactly: success when nothing fails, -2 when the first range step that does not go well runs out of memory, unhandled with nothing placed or submitted when a check before the first placement fails, an exception at the places named, else -3; success hands exactly one graph per range and ubatch to the device, any other end those up to the first step that stops; once all ubatches are placed the plan ends committed or aborted with one wipe, banks released and device idle, after exceptions too. The request trace is closed once for a batch that fails here and never otherwise. Exactly known are also when a wipe meets a running kernel, when a kernel of an earlier call keeps running, and when the banks stay allocated |
| S2Protocol.Driver.EarlyWipeUnderKernel | engine/src/llama-memplan.cpp:1018-1034 | Two calls that end in a wipe under a running kernel: an ordinary one, and one whose preparation cannot put its snapshot back |
| S2Protocol.Driver.Serve | engine/src/llama-context.cpp:2096-2404 | Over any run of calls, each tried layer by layer or not and then, unless handled, taken by the ordinary loop, which may leave kernels running: something is wiped or released under a running kernel exactly if some early wipe meets one with no banks held from before, and what runs and what is held in the end is known |
| S2Protocol.Driver.Decode | engine/src/llama-context.cpp:2096-2404 | One such call |
| S2Protocol.BusyMeans | engine/src/llama-context.cpp:2096-2404 | A kernel is running before a call exactly if an ordinary loop left one, or one ran at first, and no call since has waited |
| S2Protocol.LayerMajorStaysIdle | engine/src/llama-context-s2.cpp:690-1006 | Calls whose every batch is handled layer by layer, or fails there, are safe and leave an idle device idle |
| S2Protocol.FirstStop | engine/src/llama-context-s2.cpp:835-944 | There is one first range step that does not go well, and it alone decides between -2, -3 and an exception |
| S2Protocol.PlanMustSuit | engine/src/llama-context-s2.cpp:775-798 | A prepared plan of a single ubatch, or of more than were planned for, sends the batch to the ordinary path; one of two ubatches for which the outputs fit does not |
| S2Protocol.Driver.Attempt | engine/src/llama-context-s2.cpp:775-1005 | The state in which control leaves the body, before any destructor |
| S2Protocol.Driver.Destroy | engine/src/llama-context.h:292-322 | The guard's destructor, then the plan's: an armed guard drains, wipes and releases first, and the plan's own destructor then finds nothing left to do |
| S2Protocol.Driver.FailCleanup | engine/src/llama-context.h:261-278 | Drain, end the plan, release the banks, close the trace: afterwards the device is idle and the log is as safe as before |
| S2Protocol.Driver.FailAt | engine/src/llama-context-s2.cpp:763-773 | Every returned failure cleans up, lowers the guard and returns the disposition of its stage |
| S2Protocol.Driver.Opening | engine/src/llama-context-s2.cpp:775-798 | Banks, preparation and guards: a returned failure leaves the batch to the ordinary path with nothing placed |
| S2Protocol.Driver.ApplyAll | engine/src/llama-context-s2.cpp:802-824 | All ubatches placed in order before the guard is armed; a failure restores the metadata |
| S2Protocol.Driver.Ranges | engine/src/llama-context-s2.cpp:835-944 | Every range over every ubatch, each range graph handed to the device up to the first step that stops, the stopping one if it had started; -2 exactly if the first step that does not go well runs out of memory, an exception exactly if it throws |
| S2Protocol.Driver.OneRange | engine/src/llama-context-s2.cpp:847-890 | One range over every ubatch: as many graphs handed over as there are ubatches, or as many as came before the step that stops, and that one if it had started |
| S2Protocol.Driver.Closing | engine/src/llama-context-s2.cpp:946-1005 | After the last range the commit cannot fail |
| S2Protocol.Driver.PlanApply | engine/src/llama-memplan.cpp:1073-1122 | Only the next ubatch in order is placed, only while the plan is open |
| S2Protocol.Driver.PlanCommit | engine/src/llama-memplan.cpp:1228-1247 | Commits exactly when the plan is open and complete |
| S2Protocol.Driver.PlanAbort | engine/src/llama-memplan.cpp:1249-1301 | Wipes the caches when every ubatch was placed, restores the metadata otherwise, and does nothing to an ended plan |
| S2Protocol.Driver.BankFree | engine/src/llama-context-s2.cpp:346-359 | Waits for the device exactly if there is something to release |
| S2Protocol.SafeEverywhere | engine/src/llama-context-s2.cpp:710-716 | What the log property means: at every wipe and release the device was idle |
| S2Protocol.InFlightMeans | engine/src/llama-context-s2.cpp:346-353 | What idle means: nothing submitted since the last wait |
| OutputReorder.SortIds | engine/src/llama-context.cpp:2378-2392 | The selection sort leaves the ids ascending and records swaps that trace where each came from |
| OutputReorder.Outputs.MapOutputs | engine/src/llama-context.cpp:2357-2400 | The token-to-row table gives each output token its rank in the batch, and the pending swaps will bring its data there |
| OutputReorder.Outputs.OutputReorder | engine/src/llama-context.cpp:2601-2666 | Rows of logits, and rows of embeddings at the width they are swapped with, move as the swaps say, even where those rows reach behind the embeddings; the swaps are forgotten, a second call changes nothing |
| OutputReorder.Outputs.ResolveRow | engine/src/llama-context.cpp:1024-1051 | A row exactly for output tokens and for negative indices within range, the right one, an error otherwise |
| OutputReorder.Outputs.GetLogitsIth | engine/src/llama-context.cpp:1053-1072 | The returned row holds the data that belonged to that token before, whether or not swaps were pending and whatever the width of the swapped embeddings |
| OutputReorder.Outputs.GetEmbeddingsIth | engine/src/llama-context.cpp:1083-1102 | Likewise the returned row of embeddings, when the swapped width is the one they are stored with |
| RowSwaps.SwapRows | engine/src/llama-context.cpp:2608-2613 | The element loop exchanges two rows and leaves all others |
| RowSwaps.MoveOne | engine/src/llama-context.cpp:2605-2666 | One more swap composes with the permutation of the swaps before |
| RowSwaps.InsideMeans | engine/src/llama-context.cpp:2605-2619 | Every element the swaps touch lies in a buffer exactly if the last row they reach ends in it |
| EmbeddingStride.StrideMustAgree | engine/src/llama-context.cpp:2615-2619 | As far as the swapped rows exist, embeddings follow their tokens exactly if the swapped width n_embd equals the width n_embd_out they are written and read with, or nothing is swapped |
| EmbeddingStride.WrongStrideMixes | engine/src/llama-context.cpp:2615-2619 | Otherwise, with all elements different, some token gets a foreign element |
| EmbeddingStride.NeighboursSpared | engine/src/llama-context.cpp:2414-2437 | What lies behind the embeddings in the output buffer is spared exactly if the last swapped row ends within them |
| EmbeddingStride.WhenRowsFit | engine/src/llama-context.cpp:2414-2437 | Rows no wider than n_embd_out always fit; wider ones never do once the last row there is room for is swapped |
| EmbeddingStride.NeighbourMixed | engine/src/llama-context.cpp:2615-2619 | Two outputs in the wrong order with embeddings half as wide as the swapped rows: the neighbour's elements land among them |
| Observe.ReportsCoverTheirWindows | engine/src/llama-context-observe.cpp:130-188 | As long as the clock does not run backwards: every reported accumulator is the fold of exactly the main events between the staging start of its graph and that of the graph that follows, if and only if no such window contains an event of a stage that is begun anew before it is rotated |
| ObserveFacts.OneReport | engine/src/llama-context-observe.cpp:140-188 | A report carries the identity of its own graph, time and clock of its own stage first, of the following stage second |
| ObserveFacts.CountersCount | engine/src/llama-context-observe.cpp:89-123 | The counters of a window are the numbers of main submissions and main waits in it |
| ObserveFacts.LastSyncIsLatest | engine/src/llama-context-observe.cpp:73-85 | Its last wait is the greatest end of a main wait in it, zero if there is none |
| ObserveFacts.WaitIsSum | engine/src/llama-context-observe.cpp:108-123 | Its waiting time is the sum of its main waits, those without a moved clock adding nothing |
| ObserveFacts.FirstSubmitIsFirst | engine/src/llama-context-observe.cpp:101-106 | Its first submission is the first main submission with a time other than zero |
| ObserveFacts.FollowsMeans | engine/src/llama-context-observe.cpp:155-158 | A graph ends the open cycle with a report exactly if it is of the same request and has the next 32-bit ordinal |
| ObserveFacts.ReportsRunForward | engine/src/llama-context-observe.cpp:140-188 | As long as stages begin in time, no report ends before it begins |
| ObserveFacts.ShadowIsFold | engine/src/llama-context-observe.cpp:89-123 | The shadow accumulator counts all shadow events but the unseen waits as the main one counts main events, whatever stage or cycle is open |
| Observe.AlwaysAttributed | engine/src/llama-context-observe.cpp:89-188 | After any number of events the stage accumulator is the fold of its window, and the cycle accumulator that of its window less the lost events |
| Observe.GoneIsMissing | engine/src/llama-context-observe.cpp:89-123 | Every lost main event lowers the number of submits or syncs reported |
| Observe.RotatedRunsLoseNothing | engine/src/llama-context-observe.cpp:130-188 | Nothing is lost when every stage is rotated before the next begins |
| Observe.WindowsMerge | engine/src/llama-context-observe.cpp:73-85 | Merging two adjacent windows gives the window over both, as long as the clock does not run backwards |
| Observe.AbandonedStageLosesEvents | engine/src/llama-context-observe.cpp:130-136 | A run of six events with a report that misses a submit |
| Observe.NoCycleIsLost | engine/src/llama-context-observe.cpp:140-188 | In every run opened cycles are reported, dropped or still open |
| Observe.ShadowLeavesMainAlone | engine/src/llama-context-observe.cpp:89-123 | Deleting every shadow event, observed or not, changes nothing but the shadow accumulator |
| Observe.Bench.Rotate | engine/src/llama-context-observe.cpp:140-188 | The method takes the specified step, including the 32-bit wrap of the ordinal |
| Observe.Bench.NoteSync | engine/src/llama-context-observe.cpp:108-123 | The method takes the specified step; the fault bit suppresses shadow observations only |
| Observe.Bench.NoteSubmit | engine/src/llama-context-observe.cpp:101-106 | The method takes the specified step |
| Observe.Bench.StageBegin | engine/src/llama-context-observe.cpp:130-136 | The method takes the specified step |
| Mixture.TokenBody | engine/src/llama-graph.cpp:2465-2564 | The output grows by the scaled mixture of the present experts, is untouched when all are dropped, and the failure flag is up exactly if a present expert gave nothing |
| Mixture.DroppedMeans | engine/src/llama-graph.cpp:2490-2501 | With nonnegative weights a token is dropped exactly if no expert is present or none that is present has positive weight |
| Mixture.TotalIsKept | engine/src/llama-graph.cpp:2490-2530 | The scaled weights add up to the weight of all chosen experts |
| Mixture.RatiosAreKept | engine/src/llama-graph.cpp:2516-2530 | Present experts keep their proportions |
| Mixture.AllPresentIsPlain | engine/src/llama-graph.cpp:2516-2530 | With every expert present the result is the plain weighted sum |
| Mixture.MixtureIsWeightedAverage | engine/src/llama-graph.cpp:2490-2564 | With nonnegative weights each column lies between the least and greatest of the present experts', times the total weight |
| Inject.Parse | engine/src/llama-context-s2.cpp:609-651 | Accepts exactly stage:digits:digits with one to nine digits each, with the values named; a refused text leaves the lever unarmed |
| Inject.Words | engine/src/llama-context-s2.cpp:609-651 | The three stage words, each in a spelled-out text of its own |
| Inject.ParseIndex | engine/src/llama-context-s2.cpp:592-607 | One to nine digits and nothing else, without leaving 32 bits |
| Inject.PrintedReads | engine/src/llama-context-s2.cpp:591-651 | Printed indices read back as themselves, and are well-formed exactly below 10^9 |
| Inject.Injection.Initialize | engine/src/llama-context-s2.cpp:666-687 | The environment is looked at once in the life of the process |
| Inject.Injection.FireAt | engine/src/llama-context-s2.cpp:653-664 | Fires exactly at the named place, and disarms |
| Inject.HitsOnce | engine/src/llama-context-s2.cpp:653-664 | Over any run of calls an armed lever fires exactly once if its place comes up, else never |

## Left out

- Caches with several streams: except for the heads in `PrepareHeads`, the address arithmetic, the mask and the column count, the model has one stream; each stream runs this code on its own cells and head. Copies between streams and the pending stream copies of `update` are not modelled.
- `seq_div`, the pending-shift bookkeeping and the graph that applies it: position arithmetic that adds nothing to the search, eviction or checkpoint properties.
- The containers `llama_kv_cells`, `llama_batch` and the hyper-parameters: llama-kv-cells.h, llama-batch.h and llama-hparams are not part of this model; cells are the values their uses show, the window rule is any rule that stays masked as the distance grows and masks beyond the window, the 2-D comparison is any predicate, and for `KqMask.MaskIn2d` that of row, then column.
- 32-bit overflow of positions: positions lie in [0, 2^31 - 1) and sums such as position plus window plus 32 are unbounded integers.
- SlotSearch.FindSlot: the requires on the token count is what the callers establish (at least one token); more tokens than cells is covered and fails.
- CheckpointRoundTrip.RoundTrip: one sequence, one stream, enough usable cells; source and target may have a window, a target with one has the source's; where two dumped cells have the same position, 2-D coordinates included, only the one direction is stated; on-device storage is not modelled.
- CheckpointWhole.StateReadWhole: after an exception in the middle of the metadata none of the cells read so far are kept, where the code keeps those and part of one more.
- CheckpointBytes.DumpInBytes: the writing of bytes; the reader takes items, and its decoding of header fields from bytes is not modelled. The two coordinates of a position, one call in the code, are two.
- CheckpointRead.StateReadSeq: checkpoints read into a shared cache (`other`) are not modelled, nor the tensor rows of streams that end in the middle of the data; a position outside [0, 2^31 - 1) in a stream is refused, where the code stores it.
- HostIo.HostWriter.Finish: tensors are byte sequences passed in as they are when the writer is destroyed; the device-side writer is not modelled.
- LayerMajor.LayerByLayer: a layer is any function of its number, the ubatch, the frozen view, its own state and the incoming rows; kernels, graph building, the scheduler and the asynchronous copies are not modelled.
- LayerMajor.UbatchMajor: pooled embeddings, layer inputs and backend samplers, which the layer-major path does not admit, are not modelled.
- S2Protocol.Driver.DecodeLayermajor: the restoring of a metadata snapshot cannot itself fail inside the clean-up (there it would end the process); the hybrid and compressed memories are one memory that places ubatches.
- OutputReorder.Outputs.OutputReorder: swapped embedding rows must lie in the output buffer, behind which the program's behaviour is undefined; `EmbeddingStride` has when they leave the embeddings, and what happens to their neighbours then. Logits and embeddings only; the other buffers (next-token embeddings, layer inputs, sampled tokens and probabilities) are swapped by the same loop with other widths.
- Observe.Bench.Rotate: the accounting gate is on; with the gate off nothing is recorded at all. Counters are unbounded.
- Mixture.TokenBody: real numbers; the experts' own networks, dequantisation and activation functions are given as rows.
- Hadamard.GenHadamard: real numbers; c stands for the rounded 1/sqrt(n), quantised tensors are not modelled.
- Numerics of attention and rotation embeddings, quantisation, logging, environment variables, tracing hooks, admission predicates, graph-parameter comparison, model loading and the user interface.
