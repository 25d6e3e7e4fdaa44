# The OverlayBD mapping engine, verified

OverlayBD-Elio serves block devices from layered images. Every layer, upper and
log is a list of *mappings*: a run of logical 512-byte sectors, whether it is
DATA or ZERO, and where its payload starts. This project models the parts of the
system that edit, log, merge, seal and rebuild those lists, and proves that no
sector is lost, invented or moved on the way, over whole runs and across crashes.

All modules speak about a mapping list through one function,
`Segments.Resolve(list, sector)`: the last mapping that covers a sector decides
what it is. It gives a log and a sorted index the same kind of meaning, so
"replaying the log gives the index", "splicing equals merging" and "compaction
changes nothing" are statements about every sector.

| file | what it models |
|---|---|
| `Segments.dfy`, `SectorArray.dfy` | mappings, cutting, inserting, coalescing; the plain sector array clients see |
| `Codec.dfy` | little-endian integers, the 16-byte mapping record, the 390-byte header |
| `LayerMerge.dfy`, `MergedRead.dfy` | the recursive merge of a layer stack, its two-level lookup directory, reads |
| `MergedWritable.dfy`, `MergedUpper.dfy` | the merged view over a writable top, its range splice, and writes and reads end to end |
| `HybridLog.dfy`, `HybridLogSafety.dfy` | the Hybrid log-state protocol as a state machine with crashes at every step |
| `HybridDurability.dfy` | that protocol together with the payload file: what a flush saves |
| `HybridReplay.dfy`, `HybridStore.dfy`, `HybridWriter.dfy` | the Hybrid upper: replay, ownership, the writer class |
| `HybridTransaction.dfy`, `HybridSeal.dfy` | the Hybrid grow and seal transactions, byte by byte; a seal from writer to layer file |
| `LsmtReplay.dfy`, `LsmtJournal.dfy` | the LSMT upper's log: replay, admission, logs that reopen at any cut |
| `LsmtPlan.dfy`, `LsmtEdit.dfy`, `LsmtLayer.dfy`, `LsmtRun.dfy` | the LSMT upper: planning, editing, the layer class, whole runs |
| `LsmtDurability.dfy` | index files, their name and the payload file under power losses: what a flush saves |
| `LsmtFile.dfy`, `LsmtSeal.dfy`, `LsmtGrow.dfy` | sealed layer files, sealing, grow recovery |
| `ExportPlan.dfy` | the canonical layout of an exported sparse delta |
| `Differential.dfy` | differential warp layers, the conversion loop, and the stack that rebuilds an image |
| `Ext2Budget.dfy`, `Ext2Reader.dfy` | the block budget of the built-in ext2 converter, and the reader's streaming accounts |
| `Ext2Load.dfy`, `Ext2Gap.dfy` | which archives that reader accepts, and two of one tree of which it refuses one |

Conventions. A sector's contents is one value (`Block`), zero standing for an
all-zero sector. Each I/O call is an atomic step that may fail, except the reads of a
merged stack, which may come back short; a failed write may leave any contents
inside its own extent. File descriptors, identities, random
names and clocks do not appear. A checksum is modelled by the bytes it covers,
that is, as free of collisions. Integer widths are written out where the format
has them (14-bit length, 50-bit offset, 55-bit payload offset, 8-bit tag, and the
size limits of files and indexes).

## Results that differ from what one would expect

- The recursive merge relies on layers having no empty segment above a gap.
  Opening a plain layer file checks only order and payload bounds, so such a
  segment can reach it (`LsmtFile.UntidyOpens`, while `LsmtFile.HybridOpensTidy`
  rules it out for Hybrid files); the gap below is then emitted twice and the
  merged index is no longer ordered. `LayerMerge.TidyExactly` says exactly which
  top layers merge correctly over every layer below.
- A grow of an LSMT upper whose header rewrite persisted out of order is refused
  at the next open. Of all headers whose bytes are old or new one by one, exactly
  those with the capacity written in order are accepted
  (`LsmtGrow.AcceptedExactly`); `LsmtGrow.OutOfOrderExists` is one that is not.
- A warp layer's tags are read relative to its lowest one. Every sector is
  translated by its own tag exactly when a local entry is present or no entry has
  payload (`Differential.AnchorNeeded`); the reader does open layers where this
  fails (`Differential.UnanchoredOpens`), and the converter never makes one.
- A read of a merged stack that meets a failing sector can succeed. The source hands
  back what it had, the retry's error is dropped and the rest of that piece is filled
  with zeroes. The call is refused exactly when the first reached sector of some DATA
  piece fails (`MergedRead.Pread`); a call that succeeds is right exactly when every
  sector behind a failing one of its own piece is zero anyway
  (`MergedRead.ServedExactly`); `MergedRead.FaultHidden` is a two-sector request that
  is not.
- A flush protects an LSMT upper's flushed sectors through every power loss, but not
  its opening: a record that survives without its payload makes the pair unopenable
  (`LsmtDurability.LossRefuses`). The pair opens exactly when the surviving records lie
  in the surviving payload (`LsmtDurability.FlushSurvives`), always so for what a sync
  covered (`LsmtDurability.SyncedOpens`).
- A payload append that stops inside a sector blocks compaction until the layer is
  reopened or a later append gives the file a whole end, because the replay before a
  compaction refuses a ragged file (`LsmtLayer.Layer.Compact`). Nothing is marked
  failed.
- The ext2 reader can refuse an archive whose tree fits, and take another of the same
  tree in a different order (`Ext2Gap.OrderMatters`), so no condition on the tree
  alone is exact. One spare block for each directory of more than about a block of
  names is always enough (`Ext2Load.Load`), and without such directories loading is
  exact.
- A failed LSMT write may already be in the log while the visible segments still
  show the old sectors. The layer then refuses further work; reopening shows, for
  each sector of that request, its old or its new contents, torn only where the
  sector's own payload was being rewritten (`LsmtRun.WriteThenReopen`).

## Model

| member | source | states |
|---|---|---|
| `LayerMerge.MergeRange` | src/format/lsmt.cpp:249-296 | the iterative loop with its recursion computes the recursive merge function, empty segments included |
| `LayerMerge.MergeFills` | src/format/lsmt.cpp:249-296 | on tidy layers the merge is sorted, disjoint and length-bounded, and every sector of the range resolves to the first layer covering it with that layer's number as tag; everything else is untouched |
| `LayerMerge.MergeIndexes` | src/format/lsmt.cpp:298-307 | over the whole sector space; refused exactly above the index limit |
| `LayerMerge.TidyExactly` | src/format/lsmt.cpp:262-275 | merging a top over every tidy lower gives an ordered index if and only if each empty segment of the top starts where its predecessor ends |
| `LayerMerge.UntidyBreaks` | src/format/lsmt.cpp:275 | for every other top, a one-sector lower that makes the merged index unordered |
| `LsmtFile.UntidyOpens` | src/format/lsmt.cpp:89-228 | the plain reader accepts an empty segment anywhere past the start, and merging it over some tidy layer gives an index out of order |
| `LsmtFile.HybridOpensTidy` | src/format/lsmt.cpp:89-228 | every Hybrid file the reader accepts is tidy |
| `MergedRead.BuildDirectory` | src/format/lsmt.cpp:347-359 | the groups of the directory together are the whole index, for every size |
| `MergedRead.Lookup` | src/format/lsmt.cpp:367-448 | the grouped search finds the same first segment as a flat search, for every stride and start sector |
| `MergedRead.ReadPiece` | src/format/lsmt.cpp:428-442 | short read, retry with its error dropped, zero fill: fails exactly when the first sector does, else holds each sector up to the first failing one and zeroes from there |
| `MergedRead.FillRange` | src/format/lsmt.cpp:367-448 | the cursor loop is refused exactly when the first reached sector of some DATA piece fails to read; else every sector of the range is served once: its content, or zero behind a failing sector of its own piece |
| `MergedRead.IntactHolds` | src/format/lsmt.cpp:367-448 | without a failing sector in reach nothing is refused and every sector is right |
| `MergedRead.ServedExactly` | src/format/lsmt.cpp:428-442 | a served request holds every resolved sector if and only if each one behind a failing sector of its piece is zero anyway |
| `MergedRead.FaultHidden` | src/format/lsmt.cpp:428-442 | two sectors of one extent, the second failing: not refused, and the second comes back zero |
| `MergedRead.Pread` | src/format/lsmt.cpp:367-448 | refused exactly for an unaligned request or one reaching a DATA piece whose first sector fails; else clamped at the end of the volume, each sector content or zero as the loop serves it, with the exact count |
| `MergedRead.OpenAndRead` | src/format/lsmt.cpp:309-448 | merge, directory and read together: refused exactly for an oversized index, an unaligned request or a piece that starts with a fault; each sector served comes from the first layer that covers it or is zero behind a fault, and without faults in reach all are right |
| `MergedWritable.CopyPrefix` | src/format/merged_writable.cpp:207-306 | the kept prefix resolves as before and ends at the changed range |
| `MergedWritable.AppendTop` | src/format/merged_writable.cpp:207-306 | inside the range the result resolves like the new top, up to the first sector it does not cover |
| `MergedWritable.CopySuffix` | src/format/merged_writable.cpp:207-306 | after the range the result resolves as before, coalesced only where physically continuous |
| `MergedWritable.SpliceRange` | src/format/merged_writable.cpp:207-306 | a splice is only produced when the new top covers the whole range and the limit holds |
| `MergedWritable.SpliceIsMerge` | src/format/merged_writable.cpp:207-306 | if the top changed only inside the range, the spliced index says what a full re-merge says |
| `MergedWritable.View.RebuildIndex` | src/format/merged_writable.cpp:168-202 | afterwards the index is absent or equal in meaning to the full merge |
| `MergedWritable.View.RebuildRange` | src/format/merged_writable.cpp:207-306 | the same for the local path with its fallback |
| `MergedWritable.View.Mutate` | src/format/merged_writable.cpp:392-470 | after any pwrite or discard, failed or not, the index is absent or current |
| `MergedWritable.View.Refresh` | src/format/merged_writable.cpp:472-525 | the same after flush and grow |
| `MergedUpper.WriteThrough` | src/format/merged_writable.cpp:392-439 | a write through the view with an LSMT top: on success the stack holds the request over what it held; no sector outside the request ever changes; a kept snapshot shows what the stack holds |
| `MergedUpper.DiscardThrough` | src/format/merged_writable.cpp:441-470 | a discard through the view: on success the request shows zeroes whatever the lowers hold; no sector outside it changes; a kept snapshot shows what the stack holds |
| `MergedUpper.ReadThrough` | src/format/merged_writable.cpp:308-390 | a read through the view: an absent snapshot fails every request that reaches a sector, a present one serves each sector as the whole stack holds it, or zero behind a fault of its piece; refusals exact |
| `MergedUpper.SeenSame` | src/format/writable.hpp:126-131 | a sector whose top mapping and payload are unchanged reads the same through any lowers |
| `HybridLogSafety.RecoveryTheorem` | src/format/hybrid_log_state.cpp:154-220 | at every point of every run of appends, progress, flushes, compactions, activations, exits and power losses, inspection accepts the pair, and what it selects replays to exactly a prefix of the history: all returned operations, or at least all committed ones after a power loss; a pair not yet managed still holds its import, all of it committed |
| `HybridLogSafety.PowerLossTheorem` | src/format/hybrid_log_state.cpp:154-179 | the same for every combination of values the unsynced objects may fall back to |
| `HybridLogSafety.SameReplayIsReplay` | src/format/hybrid_format.cpp:73-117 | the comparison the theorems use, equal up to tags, is equality of the live indexes replay computes |
| `HybridDurability.FlushSurvives` | src/format/hybrid_writer.cpp:377-392 | over every run of payload writes, syncs, log steps, exits and power losses, reopening reads each sector not requested since the last completed flush exactly as that flush had it |
| `HybridDurability.FlushSurvivesLoss` | src/format/hybrid_writer.cpp:377-392 | the same for every combination of values the unsynced log objects and payload sectors may fall back to |
| `HybridDurability.FlushSaves` | src/format/hybrid_writer.cpp:377-392 | a flush that runs to its end saves the whole volume as it was at its data sync |
| `HybridDurability.NotReached` | src/format/hybrid_writer.cpp:168-231 | exclusive ownership keeps a request off the payload of every sector outside it |
| `HybridDurability.PieceMayWrite` | src/format/hybrid_writer.cpp:168-231 | every piece the writer plans goes where its own sectors have their payload, or past the end |
| `HybridLogSafety.NextInv` | src/format/hybrid_file.cpp:303-392 | every step of the protocol keeps the invariant |
| `HybridLogSafety.CompactStepInv` | src/format/hybrid_file.cpp:303-392 | each step of an index replacement |
| `HybridLogSafety.ActivateStepInv` | src/format/hybrid_log_state.cpp:190-212 | each step of activation, for an imported and for a managed pair |
| `HybridLogSafety.AppendProgressInv` | src/format/hybrid_file.cpp:414-436 | publishing progress after a record |
| `HybridLogSafety.CommitSyncInv` | src/format/hybrid_writer.cpp:377-392 | a completed flush commits everything returned |
| `HybridReplay.Append` | src/format/hybrid_format.cpp:73-117 | refuses exactly the bad records and an oversized index, else cuts and inserts |
| `HybridReplay.LiveMeaning` | src/format/hybrid_format.cpp:73-117 | the live index says of every sector what the last record covering it says |
| `HybridReplay.Finish` | src/format/hybrid_format.cpp:119-156 | throws if and only if two live DATA extents overlap; a ZERO keeps its backing if and only if it lies in the payload and overlaps no other live candidate |
| `HybridReplay.SurvivorsDisjoint` | src/format/hybrid_format.cpp:119-156 | all surviving backings are pairwise disjoint |
| `HybridReplay.Replay` | src/format/hybrid_format.cpp:73-156 | whole replay: exact refusal, and every sector as the log says |
| `HybridStore.PublishGood` | src/format/hybrid_writer.cpp:205-228 | publishing an admissible record keeps index, exclusive ownership and log in agreement |
| `HybridStore.PublishConserves` | src/format/hybrid_writer.cpp:168-231 | payload grows by exactly the sectors that became owned |
| `HybridStore.LogReplays` | src/format/hybrid_file.cpp:491-537 | the current log always replays to the meaning of the mappings in memory |
| `HybridStore.OpenGood` | src/format/hybrid_file.cpp:491-537 | an accepted log opens into a state with exclusive ownership |
| `HybridStore.CompactVerifies` | src/format/hybrid_file.cpp:303-392 | the preliminary replay of a compacted index never refuses and changes nothing |
| `HybridStore.InjectiveDisjoint` | src/format/hybrid_writer.cpp:168-231 | sector-wise exclusive ownership means pairwise disjoint extents |
| `HybridWriter.Replace` | src/format/hybrid_writer.cpp:37-65 | the vector edit is the overlay of the update; refused exactly above the limit |
| `HybridWriter.Plan` | src/format/hybrid_writer.cpp:168-200 | the next piece lies within one mapping or gap, reuses owned payload and otherwise starts at the payload's end |
| `HybridWriter.Writer.constructor` | src/format/hybrid_file.cpp:491-537 | opening establishes the writer's invariant |
| `HybridWriter.Writer.MakeRoom` | src/format/hybrid_writer.cpp:162-183 | the log bound is kept and the record limit is never reached: its error branch is dead |
| `HybridWriter.Writer.Modify` | src/format/hybrid_writer.cpp:150-232 | exact admission; on success the request's sectors hold the request; outside it nothing changes contents or place, also on failure |
| `HybridWriter.Writer.Compact` | src/format/hybrid_writer.cpp:245-297 | no sector changes contents and no owner moves, whatever fails; an index renamed before a late failure counts |
| `HybridWriter.Writer.Grow` | src/format/hybrid_writer.cpp:299-324 | which sizes and states are refused, both ways; the current size succeeds without a transaction; only a failed transaction closes the writer; content kept |
| `HybridWriter.Writer.Seal` | src/format/hybrid_writer.cpp:326-352 | exact refusals; no sector changes; on success the log is the compacted index with every mapping backed |
| `HybridWriter.Writer.Pread` | src/format/hybrid_writer.cpp:88-118 | returns the contents of each sector of the clamped range |
| `HybridWriter.ReadMapped` | src/format/hybrid_writer.cpp:88-118 | the overlay loop over a zeroed buffer |
| `HybridWriter.Writer.Pwrite` | src/format/hybrid_writer.cpp:141-143 | one splice of the sector array; payload slack conserved |
| `HybridWriter.Writer.Discard` | src/format/hybrid_writer.cpp:144-148 | one splice of zeroes |
| `HybridWriter.Writer.Resize` | src/format/hybrid_writer.cpp:299-324 | the array extended by zeroes |
| `HybridWriter.Writer.Reopen` | src/format/hybrid_file.cpp:491-537 | replaying the log on disk gives every sector back as it read |
| `HybridWriter.Perform` | src/format/hybrid_writer.cpp:141-324 | one operation on the writer is that operation on a plain sector array |
| `HybridWriter.Drive` | src/format/hybrid_writer.cpp:141-324 | any run refines the same run on a plain sector array, and payload minus owned sectors never changes |
| `HybridTransaction.Validate` | src/format/hybrid_transaction.cpp:160-227 | accepts exactly the pairs the transaction can have left |
| `HybridTransaction.Finish` | src/format/hybrid_transaction.cpp:228-264 | from any accepted pair ends with the same bytes, and writes only headers (grow) or only the tail (seal) |
| `HybridTransaction.AnyRunConverges` | src/format/hybrid_transaction.cpp:155-264 | after any number of attempts, each stopped with any subset of its bytes persisted and any of the earlier unsynced ones taken back, the pair is still accepted and leads to the same final bytes |
| `HybridTransaction.FinishedIsAccepted` | src/format/hybrid_transaction.cpp:228-264 | finishing is idempotent |
| `HybridTransaction.GrowFinished` | src/format/hybrid_transaction.cpp:228-239 | both headers parse to the old ones with the new capacity; payload and log are the same bytes |
| `HybridTransaction.GrowRecordAccepted` | src/format/hybrid_transaction.cpp:265-306 | the intent a grow publishes is accepted by the pair it was made for |
| `HybridTransaction.GrowTransaction` | src/format/hybrid_transaction.cpp:375-399 | a grow over any run of interrupted recoveries ends at the target capacity with everything else unchanged |
| `HybridTransaction.SealRecordAccepted` | src/format/hybrid_transaction.cpp:400-410 | the intent a seal publishes is accepted, for every storable tag and compacted log |
| `HybridTransaction.SealFinished` | src/format/hybrid_transaction.cpp:240-259 | the finished pair is recognised as sealed, its entries are the log's records, its payload is untouched |
| `HybridTransaction.SealTransaction` | src/format/hybrid_transaction.cpp:375-410 | the same over any run of interrupted recoveries |
| `HybridTransaction.IsSealedPair` | src/format/hybrid_transaction.cpp:309-367 | says yes exactly for a complete sealed tail with valid headers and entries, and throws exactly for a sealed tail behind bad headers |
| `HybridTransaction.SealedPairOpens` | src/format/lsmt.cpp:76-228 | whatever is recognised as sealed, the layer reader opens |
| `HybridSeal.CompactedCanSeal` | src/format/hybrid_writer.cpp:326-352 | after the compaction the pair meets every premise of the seal transaction, for every storable tag, when the sealed file has room |
| `HybridSeal.SealEndToEnd` | src/format/hybrid_writer.cpp:326-352 | a compacted writer's pair, sealed through any run of interrupted attempts, ends as a file the layer reader opens, whose index is the writer's mapping and whose every sector reads as the writer's did |
| `HybridSeal.SectorValueInjective` | src/format/hybrid_transaction.cpp:240-259 | the value standing for a sector determines its 512 bytes, so equal reads are equal bytes |
| `LsmtReplay.AppendEntry` | src/format/lsmt_rw_index.cpp:62-105 | refuses exactly the bad records and an oversized index, else cuts and inserts |
| `LsmtReplay.LiveMeans` | src/format/lsmt_rw_index.cpp:62-105 | the live index says of every sector what the last record covering it says |
| `LsmtReplay.FinishIndex` | src/format/lsmt_rw_index.cpp:107-121 | refuses if and only if two live DATA extents overlap |
| `LsmtReplay.ReplayLog` | src/format/lsmt_rw_index.cpp:62-121 | whole replay: exact refusal, and every sector as the log says |
| `LsmtJournal.Admit` | src/format/lsmt_rw_file.cpp:477-499 | the admission partition is exactly the partition replay of the longer log has, and admits exactly within the limit |
| `LsmtJournal.JournalAppend` | src/format/lsmt_rw_file.cpp:477-515 | an admitted record over fresh payload keeps every cut of the log replayable and exclusive |
| `LsmtJournal.CompactJournal` | src/format/lsmt_rw_file.cpp:531-578 | a compacted log replays to the segments it was made from, and so does every prefix to its own |
| `LsmtJournal.ReopenCut` | src/format/lsmt_rw_file.cpp:186-236 | an index file cut at any byte decodes to its complete records, reopens within all limits and means exactly those records |
| `LsmtPlan.PlanPiece` | src/format/lsmt_rw.cpp:470-508 | the plan tiles the request; live DATA keeps its payload, every other sector gets fresh payload of its own past the end |
| `LsmtEdit.WriteParts` | src/format/lsmt_rw.cpp:510-526 | all blocks land where planned, or a failure tears only planned extents |
| `LsmtEdit.PlanElsewhere` | src/format/lsmt_rw.cpp:467-526 | no planned extent holds payload of a sector outside the request |
| `LsmtEdit.InsertFused` | src/format/lsmt_rw.cpp:171-199 | insertion with both coalescings keeps order, bounds and every sector's meaning |
| `LsmtEdit.EditSegments` | src/format/lsmt_rw.cpp:549-585 | afterwards the request resolves to the plan and everything else as before |
| `LsmtLayer.Layer.Append` | src/format/lsmt_rw_file.cpp:477-515 | refused exactly when poisoned, full or over the replay limit; a failed write poisons the pair and leaves at most this record |
| `LsmtLayer.Layer.Compact` | src/format/lsmt_rw_file.cpp:531-578 | refused without a change while the payload file is ragged; otherwise the replay of the live segments cannot fail; any error leaves the pair as it was or fully replaced, and a replaced log may be cut anywhere |
| `LsmtLayer.Layer.Prepare` | src/format/lsmt_rw.cpp:288-295 | refuses after a journal failure; compacts only a log of at least 4096 records and four times the segments, where a ragged payload refuses it; leaves log and segments in agreement and no cut less reopenable |
| `LsmtLayer.Layer.WritePiece` | src/format/lsmt_rw.cpp:465-585 | a finished piece is visible and logged; a failed one leaves the segments alone and closes the journal exactly when the pair is poisoned or part of it was logged |
| `LsmtLayer.Layer.Pwrite` | src/format/lsmt_rw.cpp:450-588 | exact refusals; success writes the request; neither success nor failure changes contents or place of any other sector; after failure each requested sector, visible or logged, is old, new, or torn in its own payload; the log is what it was when the request began plus records inside the request, and no cut becomes less reopenable |
| `LsmtLayer.Layer.Discard` | src/format/lsmt_rw.cpp:638-705 | exact refusals; success zeroes the request; failure changes nothing visible and logs at most zeroes inside it; no cut becomes less reopenable |
| `LsmtLayer.Layer.Pread` | src/format/lsmt_rw.cpp:590-636 | contents of each sector of the clamped range; refused after a journal failure |
| `LsmtLayer.Locate` | src/format/lsmt_rw.cpp:604-615 | the scan finds the covering segment, or a gap that really is one |
| `LsmtLayer.Layer.Grow` | src/format/lsmt_rw.cpp:365-386 | which sizes and states are refused, both ways; a published intent is rolled forward to its capacity before anything else; the journal-failed mark is cleared only for a pending grow |
| `LsmtLayer.Layer.Reopen` | src/format/lsmt_rw_file.cpp:186-236 | from any state, at any cut: refused exactly when the complete records alias, never from the point the log reopens from; else exactly they come back, and the new layer may be cut wherever the old one could |
| `LsmtLayer.OpenLayer` | src/format/lsmt_rw_file.cpp:186-236 | a log opens into a usable layer if and only if replay accepts it, and the layer reads what the records say |
| `LsmtJournal.NoAliasInjective` | src/format/lsmt_rw_index.cpp:107-121 | an index finish accepts gives every DATA sector payload of its own |
| `LsmtRun.Perform` | src/format/lsmt_rw.cpp:450-705 | one operation on the layer is that operation on a plain sector array, and the log stays reopenable from where it was or from its start |
| `LsmtRun.Drive` | src/format/lsmt_rw.cpp:450-705 | any run refines the same run on a plain sector array, and the log stays reopenable likewise |
| `LsmtRun.DriveThenReopen` | src/format/lsmt_rw_file.cpp:186-236 | after any run, ended by a failed operation or not, every byte count of the index file reopens to exactly its complete records; uncut after a whole run it reads as the plain sector array |
| `LsmtRun.WriteThenReopen` | src/format/lsmt_rw.cpp:450-588 | a write, finished or not, and reopening with the index cut at any byte: cut where or after the request began, sectors outside it are untouched and inside each is old, new, or torn in its own payload; uncut, a finished request is all there |
| `LsmtRun.CutMeans` | src/format/lsmt_rw.cpp:450-588 | a log cut among one request's records gives each sector its meaning before the request or after it |
| `LsmtDurability.FlushSurvives` | src/format/lsmt_rw_file.cpp:517-578 | over every run of payload writes, appends, syncs, compactions, exits, opens and power losses, and for everything a loss may leave: the pair opens if and only if the surviving records lie in the surviving payload, and each sector not requested since the last completed flush reads exactly as that flush had it |
| `LsmtDurability.ExitSurvives` | src/format/lsmt_rw_file.cpp:186-236 | without a loss the pair always opens again, with the same sectors kept |
| `LsmtDurability.SyncedOpens` | src/format/lsmt_rw_file.cpp:517-529 | cut at what a sync covered, every surviving pair opens |
| `LsmtDurability.FlushSaves` | src/format/lsmt_rw_file.cpp:517-529 | a flush that runs to its end saves the whole volume as it was at its payload sync, and every loss right after it leaves a pair that opens |
| `LsmtDurability.CompactionSaves` | src/format/lsmt_rw_file.cpp:531-578 | so does a compaction whose directory sync succeeds |
| `LsmtDurability.LossRefuses` | src/format/lsmt_rw_index.cpp:62-105 | an unflushed write and a loss that keeps its record but not its payload leave a pair that is refused |
| `LsmtDurability.MovesDurable` | src/format/lsmt_rw_file.cpp:477-578 | every step keeps the invariant |
| `LsmtFile.Open` | src/format/lsmt.cpp:89-228 | refuses exactly the files that fail a check; accepted segments are ordered |
| `LsmtSeal.Pack` | src/format/lsmt_rw.cpp:808-833 | DATA is packed from sector 8 in segment order with nothing in between, each sector's contents kept |
| `LsmtSeal.SealedOpens` | src/format/lsmt_rw.cpp:835-880 | the sealed file passes every check of the reader if and only if its index is within the limit |
| `LsmtSeal.Seal` | src/format/lsmt_rw.cpp:770-915 | the output reads back as the upper read; uncovered, ZERO and DATA sectors stay what they were; no superseded block is copied |
| `LsmtGrow.CapacityMatches` | src/format/lsmt_rw_file.cpp:619-625 | accepts exactly the nine byte-prefix blends of old and target capacity |
| `LsmtGrow.BlendIsTorn` | src/format/lsmt_rw_file.cpp:619-625 | the mask arithmetic is what a write cut after so many bytes leaves |
| `LsmtGrow.BlendAtMostTarget` | src/format/lsmt_rw_file.cpp:619-625 | no accepted capacity exceeds the target, so recovery never shrinks a volume |
| `LsmtGrow.TornIsBlend` | src/format/lsmt_rw_file.cpp:613-630 | a header rewrite stopped at any byte, over whatever bytes parsed to the old header, parses to the target header with a blended capacity |
| `LsmtGrow.TornAccepted` | src/format/lsmt_rw_file.cpp:613-630 | and is accepted |
| `LsmtGrow.AcceptedExactly` | src/format/lsmt_rw_file.cpp:613-630 | of all headers mixed byte by byte from the old and the new one, exactly those whose capacity is a prefix of the new bytes over the old are accepted |
| `LsmtGrow.AcceptedIsTorn` | src/format/lsmt_rw_file.cpp:613-630 | and of two headers as the program writes them, exactly the rewrites stopped at some byte |
| `LsmtGrow.MixedParses` | src/format/lsmt_rw_file.cpp:613-630 | however the bytes of two headers that differ only in capacity are mixed, only the capacity read differs |
| `LsmtGrow.TornAgain` | src/format/lsmt_rw_file.cpp:586-657 | an interrupted recovery leaves such a header again |
| `LsmtGrow.OutOfOrderTear` | src/format/lsmt_rw_file.cpp:613-630 | every header with a later byte of the new capacity in place and an earlier one not is refused |
| `LsmtGrow.OutOfOrderExists` | src/format/lsmt_rw_file.cpp:613-630 | such a header exists, mixed from the bytes of the old and the new one |
| `LsmtGrow.OutOfOrderRefused` | src/format/lsmt_rw_file.cpp:586-657 | no pair whose data header is torn that way is rolled forward |
| `LsmtGrow.RefusedUnlessForward` | src/format/lsmt_rw_file.cpp:616-625 | an intent older than the capacity it finds is refused |
| `LsmtGrow.RecoverGrow` | src/format/lsmt_rw_file.cpp:586-657 | rolls forward exactly when the intent is well formed for these files, both live headers are accepted and the log replays at the target capacity; both headers are then the intent and nothing else changed |
| `LsmtGrow.GrowTransaction` | src/format/lsmt_rw_file.cpp:586-700 | a grow over any run of interrupted recoveries, with unsynced header bytes taken back or not, is always rolled forward to the same pair at the new capacity, which opens |
| `LsmtGrow.GrownLogReplays` | src/format/lsmt_rw_file.cpp:631-637 | a log valid at the old size, cut anywhere, replays at the new one |
| `Codec.DecodeEncode` | src/common/bytes.hpp:87-106 | a mapping record comes back if and only if its fields fit their bits |
| `Codec.EncodeDecode` | src/common/bytes.hpp:87-106 | every 16 bytes are the encoding of what they decode to |
| `Codec.DecodeCut` | src/format/lsmt_rw_file.cpp:211-226 | the bytes of a log cut after any number of records decode to exactly those records |
| `Codec.ParseSerialize` | src/format/lsmt_format.cpp:30-71 | parsing undoes serializing for every header the fields can hold |
| `Codec.ParseWithCapacity` | src/format/hybrid_transaction.cpp:183-184 | overwriting the capacity bytes changes that field and no other |
| `ExportPlan.MakePlan` | src/format/sparse_export_plan.cpp:13-64 | exact refusals, the size limit included; the plan is the normal form of the ownership, holds exactly its DATA sectors, and describes a file the layer reader opens |
| `ExportPlan.BuildMappings` | src/format/sparse_export_plan.cpp:33-53 | the run and split loops; refused only when every plan of this ownership is over the limit |
| `ExportPlan.FragmentationFree` | src/format/sparse_export_plan.cpp:13-64 | ownership lists that make every sector the same kind have one and the same plan |
| `ExportPlan.WriteDelta` | src/format/sparse_export_plan.cpp:89-124 | refused before anything is written exactly when the source is larger than the volume or a DATA sector of the ownership lies past it; the payload written holds the source's sector for every DATA sector and the volume reads zero elsewhere |
| `Differential.MakeDiff` | tools/turbo_layered.cpp:178-224 | computes, for every sector, the remote payload, the changed contents or nothing; fails exactly for bad input mappings, a claimed sector 0 or an oversized index |
| `Differential.DiffIndexMeans` | tools/turbo_layered.cpp:178-224 | the coalesced index says of every sector what the scan recorded for it |
| `Differential.PackWarp` | src/format/writer.cpp:199-291 | accepts exactly the valid mappings with a local entry over a volume of 1 to the largest number of sectors; local DATA moves with its contents, everything else stays; what is accepted fits a file, so the overflow checks never fire |
| `Differential.OpenWarp` | src/format/lsmt.cpp:171-228 | refuses exactly what fails a check; translates by normalized tag |
| `Differential.PackedOpens` | src/format/lsmt.cpp:171-228 | whatever the warp writer packs, the warp reader opens |
| `Differential.TranslateMeans` | src/format/lsmt.cpp:192-211 | with a local entry present every sector is translated by its own tag |
| `Differential.AnchorNeeded` | tools/turbo_layered.cpp:219-222 | every sector is translated by its own tag if and only if a local entry is present or no entry has payload |
| `Differential.UnanchoredOpens` | src/format/lsmt.cpp:171-211 | the reader accepts a layer for which this fails, at every capacity and index position that hold it |
| `Differential.BuildLayer` | tools/turbo_layered.cpp:287-300 | one conversion step: the opened layer gives each sector of the image or leaves it as unchanged; it fails only where the differential does |
| `Differential.StackReads` | tools/turbo_layered.cpp:287-329 | every prefix of the stack reads back as the image its last layer was built from |
| `Differential.Snapshot` | tools/turbo_layered.cpp:225-236 | copying only the chunks that are not all zero reproduces the image |
| `Differential.ConvertLayers` | tools/turbo_layered.cpp:239-329 | the layer loop fails exactly for a bad number of inputs or a layer that can not be built; otherwise every prefix of the stack reads back, sector by sector, as the image at that point |
| `Ext2Budget.EstimateCovers` | tools/obd_convert_main.cpp:664-670 | the streaming directory estimate is never below the greedy packing |
| `Ext2Budget.SumOfInsert` | tools/obd_convert_main.cpp:856-861 | the running byte total does not depend on where a name sorts |
| `Ext2Budget.BuildDir` | tools/obd_convert_main.cpp:1062-1095 | records in order, record lengths tile every block exactly, as many blocks as accounted |
| `Ext2Budget.BuildDirData` | tools/obd_convert_main.cpp:1062-1095 | the same for a directory of the tree, with its two fixed entries |
| `Ext2Budget.ReservedIsAllocated` | tools/obd_convert_main.cpp:830-845 | the recursive reservation equals the recursive allocation of the writer |
| `Ext2Budget.AddCounts` | tools/obd_convert_main.cpp:885-1023 | the reader's node and payload counters follow the tree |
| `Ext2Budget.PlanImage` | tools/obd_convert_main.cpp:1268-1306 | the image writer's size checks pass if and only if nodes and blocks fit |
| `Ext2Reader.PendingTotals` | tools/obd_convert_main.cpp:847-883 | the running total and largest record stay right wherever a name sorts |
| `Ext2Reader.EstimateClose` | tools/obd_convert_main.cpp:664-670 | for a directory of at most twelve blocks the streaming estimate is the exact count, or one more where names exceed what a block is sure to hold |
| `Ext2Reader.ReserveExact` | tools/obd_convert_main.cpp:847-883 | the directory accounts stay right for the child to come; refused exactly for too many subdirectories or a directory that truly needs more than twelve blocks |
| `Ext2Reader.NewChildExact` | tools/obd_convert_main.cpp:847-898 | a new child is refused exactly for a limit, or when the volume is over budget with the child's directory counted exactly and all others as they are noted |
| `Ext2Reader.NotedCovers` | tools/obd_convert_main.cpp:820-845 | the blocks noted for a tree while streaming cover what the exact count needs, exceed it by at most one for each large directory, and no directory is too large |
| `Ext2Reader.EnterAccounts` | tools/obd_convert_main.cpp:885-1023 | an accepted entry: the tree is what the entry says, all directory accounts stay right, the counters follow the tree, and the budget holds after every new node |
| `Ext2Load.EnterRoom` | tools/obd_convert_main.cpp:885-1023 | an entry is accepted whenever there is room for the tree with it, counting one spare block for each large directory |
| `Ext2Load.AddGrows` | tools/obd_convert_main.cpp:885-1023 | an entry never makes a tree need less, and limits kept after it were kept before |
| `Ext2Load.Load` | tools/obd_convert_main.cpp:929-1025 | a loaded tree is the one the archive describes, within all limits and the budget; every admissible archive whose tree fits with one spare block for each large directory is loaded, so without large directories loading is exact; the check at the end refuses if and only if no entry made a node and the bare root does not fit |
| `Ext2Load.Convert` | tools/obd_convert_main.cpp:1268-1306 | any accepted tree fits: none of the size checks of the image writer fires |
| `Ext2Gap.OrderMatters` | tools/obd_convert_main.cpp:847-883 | two admissible archives of one tree that fits: with the large file first it is read, with it last it is refused |

## Left out

- `HybridWriter.Writer.Modify`: refusals after sealing or checkpointing are one state, and the byte buffer is whole sectors.
- `LsmtLayer.Layer.Pwrite`: sealed and checkpointed are one closed state; payload offsets are not bounded by the 55-bit field, which file sizes never reach.
- `LsmtLayer.Layer.Grow`: headers and the intent file are in `LsmtGrow`; here a roll-forward either completes or leaves the intent pending.
- `LsmtLayer.Layer.Reopen`: a payload file cut inside a sector, which opening rounds up, comes back as whole sectors; which index bytes are left is a parameter.
- `LsmtSeal.Seal`: the content digest and uuid of the sealed file are not modelled, nor is replacing the live descriptor.
- `LsmtGrow.RecoverGrow`: the intent's own magic and checksum are not modelled, nor are failing reads and syncs.
- `LsmtGrow.GrowTransaction`: the log and payload stay as they were; records not yet synced when a power loss meets the grow are not followed.
- `HybridTransaction.Validate`: device and inode identity of the two files is not modelled.
- `HybridLogSafety.RecoveryTheorem`: checksums are free of collisions, generations are unique, and log records are whole.
- `Ext2Load.Load`: entries arrive parsed, with names of one to 255 bytes, and the tree is a value instead of being updated in place; between a tree that fits and one that fits with its spare blocks the outcome is given step by step (`Ext2Reader.NewChildExact`), since it depends on the order of entries; the libe2fs backend is not modelled.
- `MergedRead.Pread`: a failing sector fails for the whole call, and sectors fail as a whole.
- `MergedRead.OpenAndRead`: requires tidy layers; on others the merged index is out of order (`LayerMerge.TidyExactly`) and reads are not modelled.
- `HybridDurability.FlushSurvives`: payload writes are steps guarded by the writer's invariant, which `HybridDurability.PieceMayWrite` shows each planned piece meets; the writer class and the crash model are not one program.
- `LsmtDurability.FlushSurvives`: payload writes and appends are steps guarded by what the layer class keeps of its segments and log; the class and the crash model are not one program, and a ragged payload end is rounded to sectors.
- `HybridSeal.SealEndToEnd`: that the files hold what the writer has in memory is a premise.
- `ExportPlan.WriteDelta`: the checks of the header inputs, the digest and the index records behind the payload are not modelled.
- `Differential.PackWarp`: virtual sizes are whole sectors; reading the metadata input and the header options are not modelled.
- `Differential.ConvertLayers`: the digests of the image and inputs, and the packages, are not modelled.
- `Differential.BuildLayer`: that the builder's remote mappings hold the image's contents is a premise; the builder itself is not modelled.
- `MergedWritable.View.Mutate`: the admission gate between data operations and grow, and concurrent readers, are not modelled.
- LSMT pair creation and checkpoint migration: file linking and unlinking.
- ZFile compression, TurboOCI packages, tar, PAX and gzip parsing: other formats and foreign libraries.
- The sparse upper and its extent scan: they rest on kernel behaviour.
- Device topology, tracing, command line and daemon: they do not touch the mappings.
