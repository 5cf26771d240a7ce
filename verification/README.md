# Verified model of the paged key/value cache and its neighbours

This project models, in Dafny, the stateful core of an LLM runtime written in Rust, and proves what it is meant to
guarantee. `dafny verify dfyconfig.toml` checks all of it.

**The layer cache** (`TokenWindow`, `Geometry`, `Rows`, `BlockRuns`, `LayerState`, `Layer`). A sliding window of
key/value rows is held redundantly: as blocks of 256 rows, as two flat ring stages, as lazily cached contiguous
views, as a list of active block runs kept up to date step by step, and as optional quantised stores. `TokenWindow`
says what all of that stands for: the last `max` tokens accepted since the last clear. The class `LayerKvCache` has
the fields of the source; its `Valid()` states how the copies agree, and every method is proved to move the window
as specified, with the same result or error. `LayerRestore` shows that a restored snapshot behaves like the original
under every later sequence of calls, `LayerPrefix` that a captured prefix is restored exactly, and `LayerQuantized`
what the quantised stores hold and how close they decode.

**Sharing** (`Shared`, `SharedHistory`, `BlockIdentity`, `BlockReuse`). Clones and prefixes share block and stage
storage. `Shared` is a state machine over a heap of storage cells in which handles are counted, a write goes through
copy-on-write, and clone, capture, restore and drop only move handles. Every step refines a machine in which each
cache and each prefix is an independent value, so isolation holds over every interleaving, and `SharedHistory` says
what each then shows. `BlockIdentity` adds the ids: live blocks with one id have one content, in every run in which
`clear` is used only on caches that share no block storage. That condition is exact, for one clear and over whole
runs. `clear` keeps a block's id while other holders of the id keep the old content, so without it the property is
false, and a concrete run shows it. `BlockReuse` says what the mark a clear leaves on such a block is for: the next
write takes a fresh id, so blocks in use with one id stay one block under any clears, unless a second clear takes
the mark away again while the id is still in use. That condition is exact over whole runs too, and a concrete run
shows the failure.

**The block pool** (`PoolState`, `PoolTotals`, `Pool`, `PoolRuns`). Reference counts, the free list, session tables,
eviction in least-recently-used order, copy-on-write, the prefix index and the metrics, as a class whose methods are
the atomic steps. A ghost field records the references callers hold. The accounts balance after every step,
allocation and copy-on-write fail exactly when they must, eviction removes exactly a shortest prefix of the eviction
order, the prefix index never returns stale contents and finds a registered prefix as long as its blocks keep their
labels, and the recorded peaks are exact over whole runs. Whatever a session does makes it the last to be evicted.

**Quantisation** (`BitPacking`, `Quantize`, `BestCodes`). Packing at 3, 4 and 8 bits across byte boundaries round-
trips, and the symmetric and affine quantisers meet their error bounds over exact reals, through packing and
slicing. Every code is the best one: no other comes closer to its value.

**JSON canonical form** (`Sorting`, `Json`). The form is a normal form: idempotent, and shared by two values exactly
if they differ only by what it is meant to forget; and a value is in it exactly if its keys and its `required` lists
ascend.

**The Qwen ChatML renderer** (`JsonText`, `ChatMl`, `ChatMlReading`). A reader that knows only the role names, the
control tokens and the grammar of JSON reads an accepted prompt back as the conversation it shows. So equal prompts
show equal conversations, with or without tools. With tools one thing is lost, and a lemma shows it: a leading
system message without content.

**The retention planner** (`Selection`, `Prune`, `Retention`). The plan partitions the scanned snapshots, conserves
bytes, and protects what it promises to protect, for the reasons it names.

`Common` holds the definitions used throughout.

## Model

| member | source | states |
|---|---|---|
| `TokenWindow.WindowIsLastAccepted` | crates/llm-kv-cache/src/layer.rs:744-805 | after any run of append, append_sliding and clear, the specified window is exactly the last `max` tokens accepted since the last clear, and `seen` counts all of them |
| `TokenWindow.ApplyReports` | crates/llm-kv-cache/src/layer.rs:744-805 | one call: an accepted token is the last row, at the index reported, and adds one to `seen` and `revision`; a refused one changes nothing; a plain append of a sound token is refused exactly when the window is full; a clear empties it and adds one to `revision` |
| `TokenWindow.RevisionCountsSuccesses` | crates/llm-kv-cache/src/layer.rs:744-805 | over every run the revision counts exactly the calls that succeeded |
| `TokenWindow.RejectMeans` | crates/llm-kv-cache/src/layer.rs:1474-1503 | a token is refused exactly if a row has the wrong length or, in a compressed cache, a value is not finite; the key is checked first and shapes before values |
| `TokenWindow.RotateOverwrite` | crates/llm-kv-cache/src/layer.rs:765-805 | overwriting the oldest ring slot and advancing the start is "drop the head, then push" |
| `Layer.LayerKvCache.constructor` | crates/llm-kv-cache/src/layer.rs:390-451 | a new cache is valid and shows the empty window; there is one block for each 256 tokens begun, with consecutive ids from the first, empty, unmarked and at revision 0 |
| `Layer.LayerKvCache.New` | crates/llm-kv-cache/src/layer.rs:390-451 | creation succeeds exactly for a positive shape in a supported format, with the error of the first failing check |
| `Layer.LayerKvCache.Append` | crates/llm-kv-cache/src/layer.rs:744-758 | the window changes as the specified append does; the error or the report (index, slot, counters) is written out case by case; blocks, stages, views, runs and stores still agree; only the block written changes, with a fresh id exactly if its id or storage was shared; an error changes nothing at all |
| `Layer.LayerKvCache.AppendSliding` | crates/llm-kv-cache/src/layer.rs:765-805 | the window drops its head if full and then takes the token; the error or the report is written out case by case, and a full ring moves its start by one; only the block of the slot changes, with a fresh id exactly if its id or storage was shared; an error changes nothing at all |
| `Layer.LayerKvCache.AppendAtEnd` | crates/llm-kv-cache/src/layer.rs:840-880 | the token becomes the last row and every redundant copy follows |
| `Layer.LayerKvCache.Overwrite` | crates/llm-kv-cache/src/layer.rs:765-805 | in a full ring, the oldest row goes and the token becomes the last row |
| `Layer.LayerKvCache.WriteBlockToken` | crates/llm-kv-cache/src/layer.rs:1181-1257 | one slot of the blocks changes; a forked block is renamed in the table and in the runs, which stay those rebuilt from scratch; the stores of the block are refreshed |
| `Layer.LayerKvCache.WriteStageToken` | crates/llm-kv-cache/src/layer.rs:1259-1271 | one row of both stages changes and the cached views are dropped |
| `Layer.LayerKvCache.RefreshStores` | crates/llm-kv-cache/src/layer.rs:1382-1408 | after a block changed, each store again holds the quantisation of every block in use |
| `Layer.LayerKvCache.Clear` | crates/llm-kv-cache/src/layer.rs:1062-1078 | the window becomes empty, whatever storage is shared, and every part agrees with that; each block keeps its id, has no tokens, zeroed storage and one more revision, and is marked `shared` exactly if its storage has another holder; counters and stages are zero |
| `Layer.LayerKvCache.Row` | crates/llm-kv-cache/src/layer.rs:882-959 | reading row i through the block table gives row i of the window, or nothing beyond it; the checks for a stale table never fire |
| `Layer.LayerKvCache.Keys` | crates/llm-kv-cache/src/layer.rs:1528-1552 | the flat keys, sliced from the stage or from the cached wrapped view, are the concatenation of the keys of the window |
| `Layer.LayerKvCache.Values` | crates/llm-kv-cache/src/layer.rs:1528-1552 | the flat values are the concatenation of the values of the window |
| `Layer.LayerKvCache.ActiveBlocks` | crates/llm-kv-cache/src/layer.rs:972-1003 | is never refused; at most one run more than blocks; the runs partition the window and each shows its rows |
| `Layer.BlockTokenWritten` | crates/llm-kv-cache/src/layer.rs:1181-1257 | writing one block slot changes exactly one token of the physical ring, under the forked id |
| `LayerState.StageViewIsFlat` | crates/llm-kv-cache/src/layer.rs:1528-1552 | the slice, or the two slices joined, of a ring stage is the window in order |
| `LayerState.SlotWritten` | crates/llm-kv-cache/src/block.rs:232-270 | a block written at its end or at a slot in use changes one physical slot of the ring and no other |
| `BlockRuns.RebuiltCovers` | crates/llm-kv-cache/src/layer.rs:1097-1139 | the run list rebuilt from scratch partitions the window in order and locates every token in its block, id and slot |
| `BlockRuns.DropOldestIsRebuilt` | crates/llm-kv-cache/src/layer.rs:1141-1162 | shrinking the first run and renumbering gives the list rebuilt from the moved window |
| `BlockRuns.WithIdIsRebuilt` | crates/llm-kv-cache/src/layer.rs:1164-1170 | refreshing ids after a fork gives the list rebuilt from the new table |
| `BlockRuns.RunCount` | crates/llm-kv-cache/src/layer.rs:1097-1139 | there are never more runs than blocks plus one |
| `Layer.WithoutOldest` | crates/llm-kv-cache/src/layer.rs:1141-1162 | the in-place shrink and renumber is the specified removal of the oldest token |
| `Layer.RefreshedRuns` | crates/llm-kv-cache/src/layer.rs:1164-1170 | the loop renames exactly the runs of the forked block |
| `LayerPrefix.RebuiltRuns` | crates/llm-kv-cache/src/layer.rs:1172-1179 | the rebuild loop gives the list that incremental maintenance keeps |
| `LayerRestore.TakeSnapshot` | crates/llm-kv-cache/src/layer.rs:453-465 | a snapshot describes the window of the cache and passes every check of a restore |
| `LayerRestore.FromSnapshot` | crates/llm-kv-cache/src/layer.rs:467-507 | succeeds exactly if the checks pass, with the first failing one as the error, and then shows the window of the snapshot with the ring at slot 0 |
| `LayerRestore.SnapshotBisimulates` | crates/llm-kv-cache/src/layer.rs:467-507 | restoring a snapshot of any valid cache succeeds, and every later sequence of calls, however the storage of either cache is shared at each, gives both the same results, rows, counters and revision |
| `LayerRestore.RunFromNew` | crates/llm-kv-cache/src/layer.rs:744-805 | from its creation on, under any calls and any sharing, a cache shows exactly the last `maxTokens` tokens accepted since the last clear and has counted all of them |
| `LayerRestore.RowsAccepted` | crates/llm-kv-cache/src/layer.rs:1474-1503 | every row a valid cache holds would be accepted again |
| `LayerPrefix.PrefixCacheState` | crates/llm-kv-cache/src/layer.rs:509-542 | a capture retains exactly the blocks in use, each once, at its index |
| `LayerPrefix.CaptureShowsCache` | crates/llm-kv-cache/src/layer.rs:509-542 | a capture stands for the window of the cache it was taken from |
| `LayerPrefix.RestoredBlocks` | crates/llm-kv-cache/src/layer.rs:559-573 | succeeds exactly if every retained block has a sound shape, an index in range, and the vector length and capacity of its place; then the blocks and the table hold them |
| `LayerPrefix.CapturedFits` | crates/llm-kv-cache/src/block.rs:132-160 | every retained block of a captured state passes all of those checks |
| `LayerPrefix.RebuiltStages` | crates/llm-kv-cache/src/layer.rs:1273-1308 | succeeds exactly if every token of the window is in use, and then each stage row is that token |
| `LayerPrefix.RebuiltStores` | crates/llm-kv-cache/src/layer.rs:1348-1380 | succeeds exactly if the rows to be quantised are finite, and then the stores match every block |
| `LayerPrefix.FromPrefixState` | crates/llm-kv-cache/src/layer.rs:544-581 | on any state, the result is that of the checks in order; a state captured from a cache passes all of them and is restored to exactly the captured window, with all parts in agreement; the blocks in use are those of the source under their own ids, marked as shared, and the others are new |
| `LayerPrefix.CaptureAndRestore` | crates/llm-kv-cache/src/layer.rs:509-581 | capturing a cache and restoring the capture gives a second valid cache with the same window over the same blocks, all of them marked |
| `Shared.StepRefines` | crates/llm-kv-cache/src/layer.rs:335-358 | every step on caches that share storage keeps the invariant and changes what each cache and prefix shows exactly as if each had private storage |
| `Shared.RunRefines` | crates/llm-kv-cache/src/layer.rs:335-358 | the same for every interleaving of operations over any number of caches and prefixes |
| `Shared.CacheIsIsolated` | crates/llm-kv-cache/src/block.rs:124-160 | a run that never assigns a cache leaves what it shows unchanged |
| `Shared.PrefixIsIsolated` | crates/llm-kv-cache/src/layer.rs:509-542 | a run that never recaptures or drops a prefix leaves what it stands for unchanged |
| `Shared.RestoreYieldsCapture` | crates/llm-kv-cache/src/layer.rs:544-581 | a restore after any run succeeds and yields exactly the window at capture |
| `Shared.ReadsAgree` | crates/llm-kv-cache/src/layer.rs:882-949 | in every reachable state the block path and the stage path read the same row |
| `SharedHistory.ReachableShowLastAccepted` | crates/llm-kv-cache/src/layer.rs:335-358 | in every reachable state of any number of caches sharing storage, every cache shows exactly the last `max` tokens accepted since its last clear, through clones, captures and restores, and every prefix the same |
| `Shared.WriteTargetIsPrivate` | crates/llm-kv-cache/src/block.rs:232-270 | the storage a write goes to has no other holder |
| `Shared.NeverRefused` | crates/llm-kv-cache/src/layer.rs:544-557 | the shape checks of a restore never refuse a captured prefix |
| `BlockIdentity.IdsAgreeThroughoutIff` | crates/llm-kv-cache/src/block.rs:365-380 | over every run, live blocks with one id share storage, revision and token count in every state passed through if and only if every clear is of a cache that shares no block storage at that moment |
| `BlockIdentity.IdsAgreeOverRuns` | crates/llm-kv-cache/src/block.rs:365-380 | in particular they do at the end of every such run |
| `BlockIdentity.IdKeptOnlyBySoleHolder` | crates/llm-kv-cache/src/block.rs:124-130 | a write keeps the id of a block only if no other live block has it |
| `BlockIdentity.ClearAgreesIffSole` | crates/llm-kv-cache/src/block.rs:296-309 | clear keeps ids in agreement if and only if no block of the cache shares its storage |
| `BlockIdentity.ClearAfterCloneDisagrees` | crates/llm-kv-cache/src/block.rs:296-309 | clearing right after cloning always gives one id two contents |
| `BlockIdentity.ClearOfSharedDisagrees` | crates/llm-kv-cache/src/block.rs:296-309 | a concrete three-step run from the start in which ids disagree |
| `BlockReuse.InUseThroughoutIff` | crates/llm-kv-cache/src/block.rs:296-309 | over every run, with any clears: two live blocks with one id are one block, except for a cleared and marked one, in every state passed through if and only if no clear leaves a block unmarked whose id another block that is not so cleared has |
| `BlockReuse.ClearAgreesInUseIff` | crates/llm-kv-cache/src/block.rs:296-309 | the same for one clear, exactly |
| `BlockReuse.UnmarkedIsSafe` | crates/llm-kv-cache/src/block.rs:296-309 | a block that is not marked is always safe to clear |
| `BlockReuse.InUseAgree` | crates/llm-kv-cache/src/block.rs:124-130 | what that agreement gives a reader: two blocks that hold tokens and have one id share storage, revision and token count |
| `BlockReuse.ClearedBlockForks` | crates/llm-kv-cache/src/block.rs:296-309 | after a block is cleared and then written, no other live block has its id |
| `BlockReuse.ClearThenAppendForks` | crates/llm-kv-cache/src/block.rs:124-130 | after a clear of a cache, whatever shares its storage, the first token accepted goes to a block whose id no other live block has |
| `BlockReuse.SecondWriteKeepsId` | crates/llm-kv-cache/src/block.rs:124-130 | a block just written is unmarked and alone on its storage, so the next write keeps its id |
| `BlockReuse.SecondClearTears` | crates/llm-kv-cache/src/block.rs:296-309 | after cloning a cache that holds tokens, clearing the original once is harmless if it had no marked block, and clearing it twice never is: an unmarked block then has an id under which the clone holds tokens |
| `BlockReuse.SecondClearTearsFromStart` | crates/llm-kv-cache/src/block.rs:296-309 | the failing run from the start: create a cache, append, clone it and clear the original twice |
| `BlockReuse.CloneForksOnWrite` | crates/llm-kv-cache/src/block.rs:365-380 | a clone is marked, so its first write to a block takes a fresh id |
| `BlockReuse.RestoredForksOnWrite` | crates/llm-kv-cache/src/block.rs:132-160 | a restored block is marked, so its first write takes a fresh id |
| `BitPacking.PackCode` | crates/llm-kv-cache/src/format.rs:647-671 | the bits of one code are set after those already carried, across byte boundaries |
| `BitPacking.PackCodes` | crates/llm-kv-cache/src/format.rs:647-671 | in-range codes give the packed stream of their bits, any other list the error |
| `BitPacking.UnpackCode` | crates/llm-kv-cache/src/format.rs:673-700 | the bits at one position are read back as a number |
| `BitPacking.UnpackCodes` | crates/llm-kv-cache/src/format.rs:673-700 | decodes exactly payloads of the right length |
| `BitPacking.UnpackPack` | crates/llm-kv-cache/src/format.rs:647-700 | unpacking a packed list gives the list back at 3, 4 and 8 bits, and the payload has exactly the rounded-up length |
| `BitPacking.PackedLayout` | crates/llm-kv-cache/src/format.rs:647-671 | bit k of code v is bit (v w + k) mod 8 of byte (v w + k) / 8, and the bits left over are zero |
| `Quantize.RowMaxAbs` | crates/llm-kv-cache/src/format.rs:711-719 | the largest magnitude of a finite row, or the error |
| `Quantize.QuantizeInt8Rows` | crates/llm-kv-cache/src/format.rs:702-737 | each row gets its own scale and codes; shape and finiteness errors are exact |
| `Quantize.DequantizeInt8Rows` | crates/llm-kv-cache/src/format.rs:739-759 | decodes each row with its scale; shape errors are exact |
| `Quantize.Int8RowAt` | crates/llm-kv-cache/src/format.rs:702-737 | row i of the result is row i of the input quantised alone |
| `Quantize.Int8Error` | crates/llm-kv-cache/src/format.rs:702-759 | over reals each value comes back within max abs of its row / 254 |
| `BestCodes.Int8CodesAreBest` | crates/llm-kv-cache/src/format.rs:711-735 | a row of zeros has scale 0 and codes 0; in any other row 127 steps make the largest magnitude, and no integer number of steps is closer to the value than its code, ties going away from zero |
| `BestCodes.RoundIsBest` | crates/llm-kv-cache/src/format.rs:728-730 | rounding is to the nearest integer, halves away from zero |
| `BestCodes.MaxAbsMeans` | crates/llm-kv-cache/src/format.rs:712-718 | the largest magnitude bounds every value of the row and is reached |
| `Quantize.RowExtremes` | crates/llm-kv-cache/src/format.rs:547-556 | minimum and maximum of a finite row, or the error |
| `BestCodes.RowMinMeans` | crates/llm-kv-cache/src/format.rs:547-556 | the minimum bounds every value of the row and is reached |
| `BestCodes.RowMaxMeans` | crates/llm-kv-cache/src/format.rs:547-556 | so is the maximum |
| `BestCodes.AffineCodesAreBest` | crates/llm-kv-cache/src/format.rs:558-573 | the zero point is the minimum; a constant row has scale 0 and codes 0; in any other row the largest code times the scale is the range, and no number of steps above the zero point is closer to the value than its code |
| `BestCodes.Widths` | crates/llm-kv-cache/src/format.rs:647-671 | codes are 3, 4 or 8 bits wide with largest code 7, 15 or 255 |
| `Quantize.QuantizeValueBlock` | crates/llm-kv-cache/src/format.rs:537-589 | per-row range, codes and packed payload; shape and finiteness errors are exact |
| `Quantize.DequantizeValueBlock` | crates/llm-kv-cache/src/format.rs:591-624 | decodes exactly the blocks whose payload fits their rows, row by row from the payload slices |
| `Quantize.AffineSlice` | crates/llm-kv-cache/src/format.rs:537-589 | row i of the payload is the packed codes of row i of the input |
| `Quantize.QuantizedIsDecodable` | crates/llm-kv-cache/src/format.rs:591-624 | what the quantiser writes always passes the checks of the decoder and has one row per input row |
| `Quantize.AffineError` | crates/llm-kv-cache/src/format.rs:537-624 | over reals each decoded value is within (row max - row min) / (2 (2^bits - 1)) of its input |
| `Layer.QuantizedInt8` | crates/llm-kv-cache/src/format.rs:386-404 | an int8 block is the row-wise quantisation of the rows in use, refused exactly if one is not finite |
| `Layer.QuantizedValues` | crates/llm-kv-cache/src/format.rs:471-488 | an asymmetric block is the quantisation of the value rows in use, refused exactly if one is not finite |
| `LayerQuantized.DirectToken` | crates/llm-kv-cache/src/layer.rs:828-838 | the codes handed out for a token are its rows quantised alone; errors as for an append |
| `LayerQuantized.StoredRowsAreDirect` | crates/llm-kv-cache/src/layer.rs:1396-1408 | in every valid cache the store holds each row of the window, at its slot, exactly as the direct token gives it |
| `LayerQuantized.Int8DequantizedTensor` | crates/llm-kv-cache/src/layer.rs:1410-1440 | is never refused; decodes the keys or the values of the whole window, each row within its max abs / 254 |
| `LayerQuantized.DequantizedValues` | crates/llm-kv-cache/src/layer.rs:658-682 | is never refused; decodes the values of the whole window from the asymmetric store, each row within half a step |
| `LayerQuantized.StoredValuesAreClose` | crates/llm-kv-cache/src/layer.rs:1382-1394 | in every valid cache the asymmetric store decodes each value row of the window within half a step |
| `PoolState.TablesNameLiveBlocks` | crates/llm-kv-cache/src/block_pool.rs:703-760 | no session table names a freed block |
| `PoolState.ReleaseConservesIffHeld` | crates/llm-kv-cache/src/block_pool.rs:658-670 | giving back a reference keeps the accounting if and only if the caller held one |
| `PoolState.ResidentPlusFree` | crates/llm-kv-cache/src/block_pool.rs:387-441 | blocks in use and free blocks make up the pool |
| `PoolTotals.ReferencesAddUp` | crates/llm-kv-cache/src/block_pool.rs:387-441 | all reference counts together are all session ownerships and all references callers hold |
| `PoolState.FreeIffUnheld` | crates/llm-kv-cache/src/block_pool.rs:658-670 | a block is free exactly if no session owns it and no caller holds it |
| `Pool.BlockPool.constructor` | crates/llm-kv-cache/src/block_pool.rs:345-370 | a new pool has blocks with consecutive ids, all empty, unlabelled and in the free list in order, no sessions, a clock at 0 and balanced accounts |
| `Pool.BlockPool.New` | crates/llm-kv-cache/src/block_pool.rs:345-370 | creation succeeds exactly for a positive shape |
| `Pool.BlockPool.Allocate` | crates/llm-kv-cache/src/block_pool.rs:630-638 | takes the last free block, emptied, unlabelled, used now, with one reference and one more revision; fails exactly if none is free |
| `Pool.BlockPool.Retain` | crates/llm-kv-cache/src/block_pool.rs:644-656 | adds one reference to a live block only, and counts it |
| `Pool.BlockPool.Release` | crates/llm-kv-cache/src/block_pool.rs:658-670 | removes one reference from any live block, emptying and freeing it at the last; the accounts stay balanced exactly if the caller held one |
| `Pool.BlockPool.Touch` | crates/llm-kv-cache/src/block_pool.rs:672-680 | marks a live block as used, and nothing else |
| `Pool.BlockPool.LruBlock` | crates/llm-kv-cache/src/block_pool.rs:682-688 | a block in use that no other block in use was used before, or none if none is in use |
| `Pool.BlockPool.CreateSession` | crates/llm-kv-cache/src/block_pool.rs:468-474 | adds one empty session under a new id |
| `Pool.BlockPool.ReleaseSession` | crates/llm-kv-cache/src/block_pool.rs:740-760 | drops one reference to each block owned and reports how many became free |
| `Pool.BlockPool.LruSessionExcept` | crates/llm-kv-cache/src/block_pool.rs:825-838 | a non-empty session, not the excluded one, used before every other such session, or at the same time and created before it, or that too and with the smaller id; none exactly if every other session is empty |
| `Pool.BlockPool.EvictSession` | crates/llm-kv-cache/src/block_pool.rs:811-823 | releases one session and counts it, the blocks it freed and the residency before |
| `Pool.BlockPool.EvictUntilFree` | crates/llm-kv-cache/src/block_pool.rs:811-823 | ends with a block free or no candidate left; removes the shortest prefix of the eviction order that frees a block, never the requester; held blocks keep their contents |
| `Pool.EvictedComeFirst` | crates/llm-kv-cache/src/block_pool.rs:825-838 | every evicted session precedes, in eviction order, every candidate that outlived it |
| `Pool.LastUsedGoesLast` | crates/llm-kv-cache/src/block_pool.rs:703-738 | the session used last is evicted only after every other candidate |
| `Pool.BlockPool.AppendInner` | crates/llm-kv-cache/src/block_pool.rs:703-738 | appends a live block to a table, adding a reference, or taking over the caller's, only when the session did not own it; block and session are then used now, and every other session was used earlier |
| `Pool.BlockPool.AppendBlockToSession` | crates/llm-kv-cache/src/block_pool.rs:493-499 | the same with a reference of its own, so the session becomes the one used last; errors change no account |
| `Pool.BlockPool.AllocateForSession` | crates/llm-kv-cache/src/block_pool.rs:480-491 | fails exactly if the session is unknown or every block is held by it or by callers, and then every other candidate is gone; only the prefix evicted is lost; on success the session ends in an empty block of its own and is the one used last |
| `Pool.BlockPool.TouchSessionBlock` | crates/llm-kv-cache/src/block_pool.rs:762-782 | marks a session and then a live block as used; errors for an unknown session or a dead block |
| `Pool.BlockPool.ReadSessionBlock` | crates/llm-kv-cache/src/block_pool.rs:501-515 | gives the block at an index of a table, always a live one |
| `Pool.BlockPool.CopyOnWrite` | crates/llm-kv-cache/src/block_pool.rs:552-624 | on an index in range fails exactly if callers hold the block and every block is held by this session or by callers; else the session gets a block with reference count 1 and the same rows and hash, every other surviving session is unchanged, and a block already exclusive evicts nobody |
| `Pool.BlockPool.CopyBlock` | crates/llm-kv-cache/src/block_pool.rs:585-624 | the copying path meets the same contract |
| `Pool.BlockPool.InstallCopy` | crates/llm-kv-cache/src/block_table.rs:152-164 | the new block has the rows and hash of the old one, one reference and one more revision; the table entry is replaced, the old block given up only when the table no longer names it, and the session is the one used last |
| `Pool.BlockPool.AppendRow` | crates/llm-kv-cache/src/block.rs:232-250 | appends to a block with one holder, which loses its hash; a full block is refused unchanged |
| `Pool.BlockPool.SetHash` | crates/llm-kv-cache/src/block.rs:220-222 | labels a block with one holder; labels stay truthful exactly if the hash names its contents |
| `Pool.BlockPool.RegisterPrefix` | crates/llm-kv-cache/src/block_pool.rs:517-525 | the hash is registered exactly if all blocks are live and labelled and the last carries it, else forgotten |
| `Pool.BlockPool.LookupPrefix` | crates/llm-kv-cache/src/block_pool.rs:799-809 | succeeds exactly if the hash is registered for a non-empty list that ends in it and every block of the list is live and still has the hash it had; then every block returned holds exactly the contents its hash names, whatever happened since registration |
| `Pool.RegisteredIsFound` | crates/llm-kv-cache/src/block_pool.rs:517-534 | what can be registered is found again at once, with exactly its blocks |
| `PoolRuns.RegisterThenRun` | crates/llm-kv-cache/src/block_pool.rs:517-534 | a prefix registered before any sequence of calls that does not register its hash again is found after it, with exactly its ids, if and only if every block of it is then live and has its hash |
| `Pool.BlockPool.AttachPrefix` | crates/llm-kv-cache/src/block_pool.rs:536-550 | succeeds exactly if the session exists and the lookup would; appends all blocks of the prefix in order with one reference each, and the session is then the one used last; otherwise changes nothing |
| `Pool.BlockPool.MetricsSnapshot` | crates/llm-kv-cache/src/block_pool.rs:387-441 | resident plus free is total; the reference total is all ownerships plus all held references; the counted maximum is the true one; shared blocks, table entries and sessions are counted |
| `Pool.CountBlocks` | crates/llm-kv-cache/src/block_pool.rs:388-403 | one pass counts the blocks in use, the shared ones and all references, and finds the greatest reference count |
| `Pool.CountEntries` | crates/llm-kv-cache/src/block_pool.rs:405-407 | the entries of all session tables |
| `PoolRuns.Perform` | crates/llm-kv-cache/src/block_pool.rs:201-296 | each public call by callers that give back only what they hold and label truthfully keeps the accounts balanced and the peaks reached |
| `PoolRuns.RunAll` | crates/llm-kv-cache/src/block_pool.rs:65-91 | over any sequence of calls the accounts stay balanced and the recorded peaks are exactly the greatest residency and reference count of the states passed through |
| `PoolRuns.PeaksExtend` | crates/llm-kv-cache/src/block_pool.rs:855-862 | peaks exact for a trace stay exact when one more state is recorded |
| `Json.CanonicalizeMember` | crates/llm-api/src/tool_schema.rs:101-127 | the recursive rewrite with sorted keys and looked-up members computes the canonical form |
| `Json.CanonicalizeMembers` | crates/llm-api/src/tool_schema.rs:113-124 | looking members up under sorted keys gives the members sorted by key |
| `Json.CanonicalizeItems` | crates/llm-api/src/tool_schema.rs:103-107 | the items are canonicalised in place, without a key |
| `Json.CanonicalIffEquivalent` | crates/llm-api/src/tool_schema.rs:97-127 | two values have the same canonical form if and only if they differ only in object member order and in the order of all-string arrays under `required`, at every depth |
| `Json.EquivalentToCanonical` | crates/llm-api/src/tool_schema.rs:97-127 | a value is equivalent to its canonical form, which is again well formed |
| `Json.CanonicalizeIdempotent` | crates/llm-api/src/tool_schema.rs:97-99 | canonicalising twice changes nothing |
| `Json.CanonicalInOrder` | crates/llm-api/src/tool_schema.rs:108-124 | in a canonical value, at every depth, the keys of every object ascend, and so do the strings of every all-string array under `required` |
| `Json.UnchangedIffInOrder` | crates/llm-api/src/tool_schema.rs:97-127 | canonicalising changes nothing if and only if the value is already in that order |
| `Sorting.StringLeqMeans` | crates/llm-api/src/tool_schema.rs:108-110 | strings compare as a prefix, or by the smaller character at the first difference |
| `Sorting.PathLeqMeans` | crates/llm-hub/src/prune.rs:141-142 | paths compare component by component in the same way |
| `ChatMl.Find` | crates/llm-chat-template/src/lib.rs:661-678 | the first occurrence of a token |
| `ChatMl.Earliest` | crates/llm-chat-template/src/lib.rs:661-678 | the token with the earliest occurrence, or none if no token occurs |
| `ChatMl.Reserved` | crates/llm-chat-template/src/lib.rs:661-678 | text is accepted exactly if no control token occurs anywhere in it; else the earliest one is reported |
| `ChatMl.RenderPlain` | crates/llm-chat-template/src/lib.rs:404-414 | appends the turn of a message, or reports the refused text |
| `ChatMl.RenderAssistant` | crates/llm-chat-template/src/lib.rs:416-435 | the same with the tool calls, looked at in order |
| `ChatMlReading.ToolsPromptInjective` | crates/llm-chat-template/src/lib.rs:61-122 | with the same tools, instruction and options, whatever they are, two accepted requests give the same prompt if and only if they show the same leading system content and the same turns after it |
| `ChatMlReading.SilentSystemIsLost` | crates/llm-chat-template/src/lib.rs:70-96 | what is lost with tools: a leading system message without content leaves no trace in the prompt |
| `ChatMlReading.PromptOfSeen` | crates/llm-chat-template/src/lib.rs:70-96 | with tools the prompt depends only on the leading system content and the turns after it, and is refused exactly if a text in it is |
| `ChatMl.RenderTurns` | crates/llm-chat-template/src/lib.rs:98-110 | the loop over messages gives the turns in order, or the error of the first refused text |
| `ChatMl.RenderCalls` | crates/llm-chat-template/src/lib.rs:422-432 | the loop over tool calls gives them in order up to the end of the turn, or the error of the first refused payload |
| `ChatMl.RenderQwen` | crates/llm-chat-template/src/lib.rs:61-122 | the whole renderer computes the specified prompt or error; what the prompt says is stated by the next rows |
| `ChatMlReading.PromptReadsBack` | crates/llm-chat-template/src/lib.rs:61-122 | an accepted prompt without tools is a text that a reader with literal role names and control tokens reads as exactly the roles, contents and tool calls shown, in order, followed by the suffix |
| `ChatMlReading.SuffixMeans` | crates/llm-chat-template/src/lib.rs:112-119 | without a generation prompt nothing follows the turns; with it an assistant turn is opened for thinking, and thinking is closed again exactly if it is not enabled |
| `ChatMlReading.PromptGrows` | crates/llm-chat-template/src/lib.rs:98-110 | one more message adds its turn after all others and before the suffix |
| `ChatMlReading.ToolsPromptMeans` | crates/llm-chat-template/src/lib.rs:70-96 | with tools the prompt is one system turn that holds the leading system text, a blank line, the instruction and the tools, followed by the prompt of the other messages; it is accepted exactly if the tools, that text and the other messages are |
| `ChatMlReading.TurnsReadBack` | crates/llm-chat-template/src/lib.rs:404-435 | any list of accepted turns reads back |
| `ChatMlReading.TurnReadsBack` | crates/llm-chat-template/src/lib.rs:404-435 | the text of a turn, whatever follows, reads back as the turn and what follows |
| `ChatMlReading.CallsReadBack` | crates/llm-chat-template/src/lib.rs:422-434 | so do the tool calls of a turn and its end |
| `ChatMlReading.PayloadReadsBack` | crates/llm-chat-template/src/lib.rs:423-427 | the payload of a call parses as its name and its arguments |
| `ChatMlReading.CleanMeans` | crates/llm-chat-template/src/lib.rs:661-678 | accepted text is text in which none of the six control tokens occurs |
| `ChatMlReading.PromptInjective` | crates/llm-chat-template/src/lib.rs:61-122 | with no tools and the same options, two accepted requests give the same prompt if and only if they show the same roles, contents and tool calls |
| `ChatMlReading.CleanTextEnds` | crates/llm-chat-template/src/lib.rs:661-678 | accepted text followed by a control token ends at the same place in every reading: no token can lie inside it or across its edge |
| `JsonText.TextInjective` | crates/llm-chat-template/src/lib.rs:423-427 | different values print differently |
| `JsonText.ReadText` | crates/llm-chat-template/src/lib.rs:423-427 | compact JSON text reads back, by a reader for the grammar of RFC 8259, as the value it prints, with whatever follows left over |
| `JsonText.ReadClosed` | crates/llm-chat-template/src/lib.rs:423-427 | the escaped characters of a string up to its closing quote read back as the string |
| `JsonText.EscapeIsShortest` | crates/llm-chat-template/src/lib.rs:423-427 | no text that reads as a character is shorter than its escape, and escapes use lower-case digits |
| `Prune.AliasesByPath` | crates/llm-hub/src/prune.rs:231-243 | each path gets its alias names sorted, and paths without aliases get none |
| `Prune.MinimumRetained` | crates/llm-hub/src/prune.rs:245-269 | a path is retained exactly if an entry with it has fewer than `keepMin` entries of its profile ahead of it in (last used descending, path) order |
| `Prune.FirstPathsAreRanked` | crates/llm-hub/src/prune.rs:245-269 | the first entries of a sorted group are those with few enough others ahead of them |
| `Prune.ScanEntries` | crates/llm-hub/src/prune.rs:86-112 | the scanned entries are the snapshots in scope with their sizes and aliases |
| `Prune.ReasonsFor` | crates/llm-hub/src/prune.rs:119-134 | the reasons are the aliases, the minimum and recent use, in that order |
| `Prune.Divide` | crates/llm-hub/src/prune.rs:114-140 | entries without reasons are offered, the others protected with their reasons |
| `Prune.PrunePlan` | crates/llm-hub/src/prune.rs:83-156 | the method computes the specified plan |
| `Prune.PlanPartitions` | crates/llm-hub/src/prune.rs:114-156 | candidates and protected together are exactly the scanned snapshots, with byte totals and counts conserved |
| `Prune.PlanIsSorted` | crates/llm-hub/src/prune.rs:141-142 | both lists of a plan ascend by path |
| `Retention.PlanTotal` | crates/llm-hub/src/prune.rs:143-148 | the total of a plan is the sum of the sizes of all files of all snapshots in scope |
| `Retention.TotalIsSum` | crates/llm-hub/src/prune.rs:100-100 | the size of a snapshot is the sum of its file sizes |
| `Retention.ProtectedIff` | crates/llm-hub/src/prune.rs:118-140 | a snapshot is protected with given reasons exactly if those are its reasons, which are, in this order and with these labels, one for each alias, the minimum kept for its profile, and recent use, and there is at least one |
| `Retention.AliasesMean` | crates/llm-hub/src/prune.rs:231-243 | the names of a path are those listed with it, as often as listed, ascending |
| `Retention.RankMeans` | crates/llm-hub/src/prune.rs:245-269 | the rank of an entry is the number of entries of its profile used after it, or at the same time with the smaller path |
| `Retention.LaterUseRanksFirst` | crates/llm-hub/src/prune.rs:245-269 | of two entries of a profile, the one used later has the lower rank |
| `Prune.OfferedIff` | crates/llm-hub/src/prune.rs:113-140 | a snapshot is offered exactly if no alias names it, it was not used recently, and its path is not retained for its profile |
| `Prune.ProfileKept` | crates/llm-hub/src/prune.rs:245-269 | every profile keeps at least `keepMin` snapshots, or all it has, and the most recently used are among them |
| `Prune.PathsDisjoint` | crates/llm-hub/src/prune.rs:135-140 | with distinct paths, no path is both offered and protected |
| `Prune.EntriesAreScanned` | crates/llm-hub/src/prune.rs:86-112 | an entry is scanned exactly if it comes from a listed snapshot of the profile asked for, field by field |

## Left out

- IEEE arithmetic: elements are reals with a separate non-finite case; rounding of scales, overflow to infinity and signed zeros are not modelled.
- Integer widths: counters, clocks, sizes and ids are unbounded, so saturation, wrap-around and the overflow errors of checked multiplication do not occur.
- Layer.LayerKvCache: blocks and stages are values inside the class. Whether a block's storage has another holder, and the next fresh id, come in as parameters; `Shared` determines both for whole systems of caches, with the row of a slot as one unit instead of flat storage and without the quantised stores, views and runs.
- Shared: the number of holders of a storage is the number of live handles to it, which is what reference counting guarantees.
- Shared.CapturePrefix: the blocks in use are kept in block order; the source keeps them in the order of the runs, which `LayerPrefix` models.
- LayerState.CacheBlock: block ids are numbered from the first valid one, so the reserved invalid id cannot occur and the checks for it are not modelled.
- LayerQuantized: the measured reconstruction error of the asymmetric format is a report and not modelled; the bound it must stay within is.
- Pool.BlockPool: pool blocks hold the rows in use by value, without the spare capacity or the sharing of storage between pool blocks; shape checks on single rows are left to the layer model.
- Pool.BlockPool.AppendInner: the private function is used without `retain` only by a caller that holds the block, which is its precondition.
- Pool.BlockPool.SetHash: hashes are opaque labels; the chain hash itself is not part of this model.
- Pool.BlockPool.MetricsSnapshot: the percentages and averages derived from the counts, and bytes saved, are left out.
- PoolRuns.Perform: mutable access to a pool block is limited to appending a row and labelling; changing a block's reference count directly would bypass the accounts.
- Pool locking, poisoning and equality: each method is one atomic step.
- Json: numbers are represented by the text they print as. That the keys of an object are distinct is a precondition, because the value type guarantees it; the depth limit of the parser is not modelled.
- ChatMl: the serialised text of the tools is a parameter, and requests are compared for the same tools and instruction. The source's branch for an unknown role cannot be reached with the four roles there are.
- ChatMlReading.PromptInjective: messages are compared by what is rendered; names, tool call ids and tool calls of other roles are not rendered.
- Prune: reading the directory, the usage file and the manifests is replaced by parameters; applying a plan, verifying and quarantining snapshots are file-system work and not modelled. Paths are lists of plain components.
- Tracing, byte-size reports, serialisable pool snapshots, the linear-attention cache, the cache budget, the other chat templates, the hub client and the server would add only easy members or are input and output.
