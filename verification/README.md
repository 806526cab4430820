# TurboSuperMemory in Dafny

A model of the core of TurboSuperMemory, a memory store for language-model agents (a Rust
engine with a Python SDK), with machine-checked proofs of what that core promises. Vectors
are exact reals; everything else is modelled with the branches, constants and error cases
of the code.

The project follows the system from the bottom up:

* **Vectors** (`Vectors`, `Hadamard`, `HadamardLaws`, `Rotation`, `RaBitQ`, `RaBitQScore`):
  the in-place fast Walsh-Hadamard transform, the rotations built on it, and the RaBitQ
  lookup-table score.
* **Durability** (`Records`, `Wal`, `WalFile`, `Recovery`, `Engine`, `CrashSafety`,
  `PowerLoss`, `LostVectors`, `LoggedRuns`, `PowerScenarios`, `Strays`, `EngineApi`): the
  write-ahead log down to its bytes, the engine's write/flush/recover protocol as a state
  machine in which the process may die between any two steps, what a power loss leaves, what
  writes that fail after they were logged leave, and the engine's public operations run on
  that machine.
* **Budgets** (`Text`, `Gist`, `Packing`, `Partition`, `Selection`, `Compaction`, `Planner`,
  `BoundedStores`): token accounting, packing, balanced partitioning, diverse selection, and
  planning a compaction.
* **The memory object** (`Ids`, `Store`, `Passes`, `MemoryApi`, `Races`, `Scenarios`,
  `PassCrash`): ids, adding facts, and compaction passes: alone, interleaved with other
  threads and other passes, stopped by a failing delete, and cut short by a crash.
* **Beliefs** (`Belief`, `Recall`, `Verification`): following supersessions to the current
  belief, ranking it, and vetting proposed supersessions.
* **Edges** (`Embedder`, `Filters`): the cached embedding client and the two filter formats.

`dafny verify dfyconfig.toml` checks everything.

## Main results

1. **The butterfly loops compute the Hadamard matrix.** `Hadamard.Fwht` equals a recursive
   transform, `HadamardLaws.Closed` equates that with the matrix of signs
   `(-1)^popcount(j AND k)`, and it is linear, symmetric, and its own inverse up to `n`. So
   rotation keeps all inner products and loses nothing.
2. **A kill never loses an acknowledged write.** For every run of reservations, vector
   writes, appends, commits, flush steps and reboots, the reopened store is the acknowledged
   history, plus a prefix of the write in flight (`CrashSafety.EveryRunIsDurable`,
   `KillLosesNothing`, down to bytes in `CutFileIsSomeReboot`).
3. **What a power loss brings back can be read off the log.** For every run, every
   surviving prefix of its log and every set of lost vectors, the store recovery was meant
   to rebuild is the history up to a moment of that run, and there is an if-and-only-if on
   the surviving log for each of: nothing returns, ids stay unique, recovery is that moment
   (`LoggedRuns.PowerCut`, from `LostVectors.NothingReturnsIff`, `IdsUniqueIff`,
   `PointInTimeRead`). Over every run with writes that fail after they were logged and with
   restarts that find no id twice, the reopened store is the live one if and only if
   every such frame is a deletion of something gone anyway, or covered by the snapshot
   (`Strays.ReopensAsAcknowledgedIff`). A lost vector is one whose bytes fail the logged
   checksum: what replay adds has passed it, and what fails it is as if never logged
   (`Recovery.AddedIsChecked`, `UncheckedIsSkipped`).
4. **A user's memory ends within its token budget** after every pass that succeeds, whatever
   the summarizer answers, and nobody else's is touched (`MemoryApi.Memory.CompactUser`,
   `Compact`, `CompactTouched`), and a pass succeeds if and only if every outside call it
   makes does. Its summarizer is told every folded user fact and every line of the folded
   user gists, each once and in order (`Planner.PlanCompaction`). A pass that applies never deletes a fact stored after its snapshot, if
   and only if the id counter has passed every memory it folds (`Passes.LateFactsSurviveIff`).
   Two passes of one snapshot never both apply, whatever is written around them, if and only
   if they have in common a memory the counter has passed (`Passes.NeverBothIff`). A pass
   stopped by a failing delete has all its gists and only a prefix of its deletes; one cut
   short by a crash leaves some first operations of its own, so either nothing folded is gone
   or all gists are live (`PassCrash.KilledPassLosesNothing`).
5. **Chunks are balanced.** No chunk of `partition_by_token_weight` outweighs
   `max(W, T/K + (W - 1/2) H(K-1) + 1/2)` (`Partition.PartitionByTokenWeight`).
6. **A recall that shows a stale memory shows the belief that replaced it**, before it
   (`Recall.CutHoldsCurrent`), under a condition on demotion and role priors that is exact
   (`BroughtInLeadsIff`). Every other memory keeps its score (`ResolvesExactly`).

## Where the code and its description differ

The model follows the code. Each of these has a lemma with a concrete input, and the exact
condition under which the described behaviour holds.

* `inverse_project` is called the inverse of `project`. It is, exactly when the dimension is
  a power of two (`RaBitQ.ProjectInvertsIffPow2`); otherwise the first basis vector comes
  back with its first coordinate shrunk to `dim / pad` (`BasisComesBackShrunk`,
  `NineDimensionsShrink`).
* An update is described as never half applied. After a power loss without `sync_writes`, two
  updates can leave two records under one id (`PowerScenarios.TwoUpdatesCanLeaveTwoRecords`), if
  and only if the log has an update that lost its vector while the record it replaced did
  not, and later a surviving record of that id (`LostVectors.IdsUniqueIff`). A deleted memory
  can return (`PowerScenarios.DeletedMemoryCanReturn`), if and only if some update lost its
  vector while the record it replaced did not (`LostVectors.NothingReturnsIff`).
* A write that raises is expected to have done nothing. When its frame was logged and the
  sync failed, the next open replays it: a retried insert is there twice
  (`Strays.FailedSyncCanDuplicate`), and a failed update outlives a later deletion
  (`FailedUpdateOutlivesDelete`). An update whose index step fails leaves its id with no record
  until the store is reopened, and then with the new one (`HalfUpdateComesBack`). Exact
  condition: `ReopensAsAcknowledgedIff`.
* A failed append is rolled back so that the next one does not land behind half a frame.
  When cutting the file fails too, the next append overwrites what is there, and a whole
  frame behind it is read again (`WalFile.FailedFrameResurfaces`). A replay reads the
  acknowledged operations and then exactly what can be read behind the write position
  (`WalFile.LogFile.Append`).
* `open` refuses a store whose very first write failed after its vector was stored and a
  flush had stamped the vector count (`CrashSafety.FailedFirstWriteIsRefused`; exact
  condition: `OpensIff`).
* A compaction that fails is described as having removed nothing. When a delete raises, the
  gists and the deletes before it stay (`Scenarios.FailedPassLosesAFact`). A failing pass
  changes no record if and only if it failed before its gists were written, or had none and
  its very first delete raised (`MemoryApi.Memory.CompactUser`).
* Seeding the id counter from the insert sequence is described as keeping ids unique when a
  database is reopened. No two live memories share an id, but an id can be used twice: an
  `add` whose batch is refused uses up numbers but no sequence number, so a
  reopened store can hold ids its counter is still to reach: exactly the live ids numbered at
  or past the next sequence number (`MemoryApi.Connect`). Such an id can be freed and minted
  again, and then a pass planned before deletes the later fact
  (`Scenarios.ReopenedStoreLosesALateFact`). A deleted id stays dead if and only if the
  counter had passed it (`Passes.DeadStaysDeadIff`), and the same condition on the folded
  memories is the exact one for late facts to survive (`LateFactsSurviveIff`).
* Two passes planned on one snapshot can both apply, because each reads the superseded ids
  afresh (`Races.BothPassesCanEmptyAUser`, and with a set that only grows
  `GrowingSetBothApply`). With nothing written in between they do if and only if they fold no
  memory in common (`Races.BothApplyIff`). Over all courses of events they never do if and
  only if they have in common a memory the counter has passed (`Passes.NeverBothIff`); with
  the same superseded ids that is any folded memory the counter has passed
  (`Races.OnlyOneAppliesIff`). When both apply with nothing in between, the user keeps what
  both kept and both sets of gists, which is under the budget (`BothLeave`).
* A compaction pass clears the user's "due for a pass" mark even when a fact stored during
  its planning leaves the user over budget (`Scenarios.LateFactLeavesUserUnmarked`). The user
  fits afterwards if and only if what arrived is at most the budget less what the plan kept
  and wrote (`MemoryApi.Memory.ApplyPlan`).
* `belief_head` is described as the memory nothing supersedes. When two memories are committed
  as each other's replacement, each is reported as superseded by the other
  (`Belief.MutualSupersessionHasNoCurrent`; exact condition: `HeadIsCurrentIff`).

## Model

| member | source | states |
|---|---|---|
| `Hadamard.Fwht` | crates/turbomemory_core/src/lib.rs:135-150 | the three nested in-place loops leave the recursive Walsh-Hadamard transform of the input, for every power-of-two length |
| `Hadamard.Butterflies` | crates/turbomemory_core/src/lib.rs:141-146 | the innermost loop is one butterfly over the two halves of its block and touches nothing else |
| `Hadamard.OneStage` | crates/turbomemory_core/src/lib.rs:140-147 | the middle loop applies one butterfly to every block of size 2h |
| `Hadamard.StageDoublesBlocks` | crates/turbomemory_core/src/lib.rs:139-149 | if every aligned block of size h holds the transform of its original block, then after one stage every block of size 2h does |
| `HadamardLaws.Closed` | crates/turbomemory_core/src/lib.rs:135-150 | output k is the sum over j of (-1)^popcount(j AND k) v[j]: an independent definition by signs of bits |
| `HadamardLaws.TransformAdd` | crates/turbomemory_core/src/lib.rs:135-150 | the transform is additive |
| `HadamardLaws.TransformScale` | crates/turbomemory_core/src/lib.rs:135-150 | the transform commutes with scaling |
| `HadamardLaws.Involution` | crates/turbomemory_core/src/lib.rs:135-150 | applying the transform twice multiplies every vector by its length |
| `HadamardLaws.Symmetric` | crates/turbomemory_core/src/lib.rs:135-150 | the transform moves across an inner product |
| `HadamardLaws.Parseval` | crates/turbomemory_core/src/lib.rs:135-150 | inner products of transforms are n times the originals |
| `Rotation.FlipSigns` | crates/turbomemory_core/src/lib.rs:153-160 | the in-place loop multiplies by a diagonal of signs |
| `Rotation.Precondition` | crates/turbomemory_core/src/lib.rs:168-175 | signs, transform and scaling in place equal the rotation |
| `Rotation.RotationKeepsDot` | crates/turbomemory_core/src/lib.rs:162-175 | for fixed signs the rotation preserves every inner product |
| `Rotation.RotationRoundTrip` | crates/turbomemory_core/src/turbo_quant.rs:142-155 | transform, signs, scale in that order undo signs, transform, scale |
| `Rotation.RotatedAt` | crates/turbomemory_core/src/lib.rs:162-175 | coordinate k of the rotation is the scaled row of signs k applied to the sign-flipped vector: signs first, then the transform |
| `Rotation.UnrotatedAt` | crates/turbomemory_core/src/turbo_quant.rs:145-155 | coordinate k of the inverse: the transform first, then the sign |
| `Rotation.RotateForward` | crates/turbomemory_core/src/lib.rs:183-192 | returns the norm; leaves a unit vector for every nonzero input; rotating back and rescaling by the returned norm gives the input again, the zero vector included |
| `Rotation.RotateBackward` | crates/turbomemory_core/src/turbo_quant.rs:145-155 | the in-place inverse computes the inverse rotation |
| `RaBitQ.Adjoint` | crates/turbomemory_core/src/rabitq.rs:54-80 | projecting one argument of an inner product and unprojecting the other agree up to pad/dim, for every dimension |
| `RaBitQ.ProjectedAt` | crates/turbomemory_core/src/rabitq.rs:54-67 | coordinate k of the projection by rows of signs: scaled, padded and sign-flipped before the transform |
| `RaBitQ.UnprojectedAt` | crates/turbomemory_core/src/rabitq.rs:69-80 | coordinate k of the inverse: padded, transformed, then sign-flipped and scaled |
| `RaBitQ.PaddedAt` | crates/turbomemory_core/src/rabitq.rs:55-80 | padding keeps the coordinates and adds zeros |
| `RaBitQ.ProjectRoundTrip` | crates/turbomemory_core/src/rabitq.rs:54-80 | with no padding, unprojecting undoes projecting |
| `RaBitQ.BasisComesBackShrunk` | crates/turbomemory_core/src/rabitq.rs:69-80 | with padding, the first basis vector comes back with its first coordinate shrunk to dim/pad |
| `RaBitQ.NineDimensionsShrink` | crates/turbomemory_core/src/rabitq.rs:54-80 | a concrete quantizer, nine dimensions padded to sixteen, brings the first basis vector back with 9/16 as its first coordinate |
| `RaBitQ.ProjectInvertsIffPow2` | crates/turbomemory_core/src/rabitq.rs:69-80 | unprojecting undoes projecting on all vectors if and only if the dimension is a power of two |
| `RaBitQScore.Project` | crates/turbomemory_core/src/rabitq.rs:55-67 | the padded-buffer loops compute the projection |
| `RaBitQScore.InverseProject` | crates/turbomemory_core/src/rabitq.rs:70-80 | the padded-buffer loops compute the inverse projection |
| `RaBitQScore.BuildTables` | crates/turbomemory_core/src/rabitq.rs:187-245 | one table of 256 entries per code byte; entry b is what byte b contributes to the inner product, coordinates past the dimension excluded, for 1 and 2 bits |
| `RaBitQScore.CodesAreDigits` | crates/turbomemory_core/src/rabitq.rs:187-235 | the codes of a byte are its digits in base 2, or 4, lowest first: in range, and together the byte |
| `RaBitQScore.CentroidsAre` | crates/turbomemory_core/src/rabitq.rs:150-169 | the centroid of every code, for 1 and 2 bits |
| `RaBitQScore.TablesComputeDot` | crates/turbomemory_core/src/rabitq.rs:187-262 | summing table entries over the code bytes is the inner product with the unpacked centroids |
| `RaBitQScore.Score` | crates/turbomemory_core/src/rabitq.rs:248-262 | the table walk scores alpha times the inner product of centroids and projected query; a short code has no score |
| `RaBitQScore.ScoreRefinesDecode` | crates/turbomemory_core/src/rabitq.rs:138-262 | the fast score is exactly the inner product of the query with the decoded vector, times pad/dim |
| `Wal.ScanKeepsPrefix` | crates/turbomemory_storage/src/wal.rs:275-333 | reading whole frames followed by any bytes yields those operations first, then whatever the bytes yield |
| `Wal.FramesConcat` | crates/turbomemory_storage/src/wal.rs:174-209 | frames of a concatenation are the concatenated frames |
| `Wal.FrameLayout` | crates/turbomemory_storage/src/wal.rs:199-209 | a frame is the payload's length, highest byte first, the payload, and its checksum, highest byte first |
| `Wal.ReadFrameIff` | crates/turbomemory_storage/src/wal.rs:275-333 | bytes start with a readable frame exactly for a nonzero length that is all there, a checksum that is the payload's, and a payload that decodes in the log's version |
| `Wal.CorruptEndsLog` | crates/turbomemory_storage/src/wal.rs:275-333 | a frame whose checksum is not its payload's ends the log, whatever follows it |
| `Wal.CutLog` | crates/turbomemory_storage/src/wal.rs:261-333 | a log cut at any byte reads as exactly the operations whose frames are whole, and says where they end |
| `WalFile.ScanLocal` | crates/turbomemory_storage/src/wal.rs:275-333 | what is read from a good prefix does not depend on what follows it, for arbitrary bytes |
| `WalFile.CutThenAppend` | crates/turbomemory_storage/src/wal.rs:229-237 | after any file is cut at its valid end, appended operations are all read back behind the surviving ones |
| `WalFile.TornClear` | crates/turbomemory_storage/src/wal.rs:109-156 | a clear torn at any byte of the header reopens as an empty current-version log |
| `WalFile.OpenedIff` | crates/turbomemory_storage/src/wal.rs:122-149 | a file is refused exactly for a whole header with other letters than TMSW or a version other than 1 and 2; a shorter file becomes an empty current log |
| `WalFile.LogFile.Append` | crates/turbomemory_storage/src/wal.rs:174-197 | all operations are written at the write position or the call fails and the position stays; refused for an old-format log; what a failed write leaves, byte by byte, whether the file could be cut back or not; a replay reads the acknowledged operations, then what can be read behind the position, which after one failed write is a prefix of its operations |
| `WalFile.FailedFrameResurfaces` | crates/turbomemory_storage/src/wal.rs:189-196 | two frames written, neither acknowledged nor cut back, then an append over the first: the second is read behind it |
| `WalFile.LogFile.Replay` | crates/turbomemory_storage/src/wal.rs:216-333 | the reading loop returns the readable operations, the valid end and the discarded byte count; nothing is discarded exactly when the file is clean |
| `WalFile.LogFile.TruncateTo` | crates/turbomemory_storage/src/wal.rs:231-237 | sets the length and the write position, never into the header; at the valid end it makes the log clean and keeps its operations |
| `WalFile.LogFile.Clear` | crates/turbomemory_storage/src/wal.rs:240-247 | leaves only a current header |
| `Recovery.ReplayIsApply` | crates/turbomemory_storage/src/engine/mod.rs:250-310 | replay of newer operations whose vectors are present is plain application |
| `Recovery.ReplayOfStale` | crates/turbomemory_storage/src/engine/mod.rs:250-310 | replaying a log already captured by the snapshot changes nothing |
| `Recovery.ReplayTouchesOnly` | crates/turbomemory_storage/src/engine/mod.rs:250-310 | replay leaves every offset no replayed operation names as it was |
| `Recovery.AddedIsChecked` | crates/turbomemory_storage/src/vector_store.rs:234-257 | a record that replay adds has a newer operation in the log whose logged checksum is that of the bytes in its slot, or a plausible slot where none was logged |
| `Recovery.UncheckedIsSkipped` | crates/turbomemory_storage/src/engine/mod.rs:253-299 | anywhere in the log, an insert or update whose slot is missing or fails that check is as if it had not been logged, and one that passes is applied |
| `CrashSafety.StepKeeps` | crates/turbomemory_storage/src/engine/mod.rs:206-358 | every step of the machine, crashes and reopening included, keeps the durability invariant and only extends the history |
| `CrashSafety.KillLosesNothing` | crates/turbomemory_storage/src/engine/mod.rs:244-310 | killed in any reachable state with any part of the in-flight batch logged, the next open rebuilds exactly the acknowledged records with that part applied |
| `CrashSafety.EveryRunIsDurable` | crates/turbomemory_storage/src/engine/mod.rs:206-358 | over every run the live records are the history applied to an empty store, with unique ids, and the history never shrinks |
| `CrashSafety.CutFileIsSomeReboot` | crates/turbomemory_storage/src/wal.rs:174-197 | a log file cut at any byte of the in-flight append is the log of one of the machine's reboots |
| `CrashSafety.MergedIsLive` | crates/turbomemory_storage/src/metadata_store.rs:378-435 | writing only the dirty entries leaves a snapshot equal to the live table |
| `CrashSafety.FlushMaySave` | crates/turbomemory_storage/src/engine/mod.rs:932-936 | both sequence numbers a flush or a recovery stamps are admissible after the vector count is stamped |
| `CrashSafety.OpensIff` | crates/turbomemory_storage/src/engine/mod.rs:334-358 | a crashed store opens if and only if a snapshot was written, no vector was counted, or something was logged |
| `CrashSafety.OpenChecks` | crates/turbomemory_storage/src/engine/mod.rs:334-358 | an opened store counts a vector for every record; metadata is missing exactly when vectors were counted, no snapshot was written and nothing in the log replays |
| `CrashSafety.FailedFirstWriteIsRefused` | crates/turbomemory_storage/src/engine/mod.rs:334-342 | reserve, store the vector, stamp the count, die: the next open refuses the store |
| `PowerLoss.OffAll` | crates/turbomemory_storage/src/engine/mod.rs:253-304 | how far a replay with missing vectors is from the history since the snapshot, tracked exactly through any log |
| `PowerLoss.PointInTimeIff` | crates/turbomemory_storage/src/engine/mod.rs:253-304 | recovery equals the history since the snapshot if and only if the damage computed frame by frame ends empty; frames the snapshot covers may still be in the log |
| `PowerScenarios.TwoUpdatesCanLeaveTwoRecords` | crates/turbomemory_storage/src/engine/mod.rs:277-299 | a run from the empty store: insert, flush, two updates; with only the first new vector lost, two live records with one id are recovered |
| `PowerScenarios.OtherBytesAreRefused` | crates/turbomemory_storage/src/vector_store.rs:244-253 | a run from the empty store: with bytes of another checksum in its slot an inserted memory is not recovered, with its own it is |
| `PowerScenarios.DeletedMemoryCanReturn` | crates/turbomemory_storage/src/engine/mod.rs:277-306 | a run from the empty store: insert, flush, update, delete; with the update's vector lost, the old record is live again |
| `Strays.StepOk` | crates/turbomemory_storage/src/engine/write.rs:108-115 | every step, writes that fail after their frame was logged, updates that fail half way and restarts that replay such frames included, keeps what a replay of the log on disk gives: the live records, less what such frames removed, and what they put |
| `Strays.ReopenedIs` | crates/turbomemory_storage/src/engine/mod.rs:244-310 | killed anywhere, with any part of the write in flight logged, the next open finds exactly that |
| `Strays.RestartsIff` | crates/turbomemory_storage/src/engine/mod.rs:244-358 | the next open, stray frames replayed, is a step of the machine exactly when it accepts the disk and finds no id twice |
| `Strays.ReopensAsAcknowledgedIff` | crates/turbomemory_storage/src/engine/write.rs:108-115 | over every run with failing writes and restarts, the reopened store is the live one if and only if every unacknowledged frame is covered by the snapshot or deletes something gone anyway |
| `Strays.FailedSyncCanDuplicate` | crates/turbomemory_storage/src/engine/write.rs:108-115 | a run in which an insert fails after it was logged and is retried: both records are live after a restart, under one id, with no vector missing |
| `Strays.FailedUpdateOutlivesDelete` | crates/turbomemory_storage/src/engine/write.rs:491-506 | a run in which an update fails after it was logged and the memory is then deleted: the update is live after a restart |
| `Strays.HalfUpdateComesBack` | crates/turbomemory_storage/src/engine/write.rs:502-510 | a run in which an update fails after the old record left memory: no record is live, and the new one is after a restart |
| `PowerLoss.ReplaySince` | crates/turbomemory_storage/src/engine/mod.rs:322-331 | frames the snapshot covers, left in the log by a kill before it was cleared, replay as nothing |
| `LostVectors.LostIff` | crates/turbomemory_storage/src/engine/mod.rs:253-304 | a live record is lost exactly when its own frame's vector is missing; otherwise it is recovered as it was |
| `LostVectors.RevivedIff` | crates/turbomemory_storage/src/engine/mod.rs:277-304 | a record that is no longer live is recovered exactly when an update without its vector replaced it and its own vector is there |
| `LostVectors.NothingReturnsIff` | crates/turbomemory_storage/src/engine/mod.rs:253-304 | nothing replaced or deleted comes back if and only if every update that lost its vector replaced a record that had lost its own |
| `LostVectors.IdsUniqueIff` | crates/turbomemory_storage/src/engine/mod.rs:253-304 | ids are unique after recovery if and only if no such reviving update is followed by a record of its id that has its vector and is removed by nothing |
| `LostVectors.PointInTimeRead` | crates/turbomemory_storage/src/engine/mod.rs:253-304 | recovery is a point in time if and only if no update revives what it replaced and every record stored without its vector was replaced or deleted again |
| `LoggedRuns.ChainLogged` | crates/turbomemory_storage/src/engine/write.rs:183-215 | what the write path appends is well formed for these results |
| `LoggedRuns.EveryLogIsShaped` | crates/turbomemory_storage/src/engine/mod.rs:206-358 | over every run the log is frames the snapshot covers, then operations since it; the history up to the snapshot gives its records, and with those operations it is the whole history |
| `LoggedRuns.PowerCut` | crates/turbomemory_storage/src/engine/mod.rs:244-332 | power lost anywhere in any run, keeping any prefix of the log and any vectors: the recovered store is the replay of that prefix, whose front the snapshot covers; the store meant is the history less what the cut took off the log, or the snapshot; and for the surviving operations behind that front: nothing returns, ids are unique and recovery is that moment, each if and only if its condition on those operations holds |
| `EngineApi.StorageEngine.Create` | crates/turbomemory_storage/src/engine/mod.rs:206-240 | a new store is empty and valid |
| `EngineApi.StorageEngine.Insert` | crates/turbomemory_storage/src/engine/write.rs:162-217 | invalid and duplicate records change nothing; a failing write leaves no record, and no frame if the append was rolled back, else its frame unacknowledged in the log; otherwise exactly that record is added under the next sequence number and enters the history |
| `EngineApi.StorageEngine.InsertBatch` | crates/turbomemory_storage/src/engine/write.rs:263-360 | one invalid record rejects the batch untouched; a failing write adds nothing live and all or none of the frames; otherwise the count is that of the first positions of ids that were not live, exactly those records are new, field by field and numbered in order, and every id of the batch is live |
| `EngineApi.InsertOpsAt` | crates/turbomemory_storage/src/engine/write.rs:339-350 | what is logged for each record of a batch, field by field |
| `EngineApi.NewOnesAt` | crates/turbomemory_storage/src/engine/write.rs:296-328 | the inputs kept are those at the first position of each id that is not live, in order |
| `EngineApi.InsertsChain` | crates/turbomemory_storage/src/engine/write.rs:318-352 | a batch's log operations are admissible one after the other |
| `EngineApi.StorageEngine.Delete` | crates/turbomemory_storage/src/engine/write.rs:383-400 | removes exactly the record with that id; an unknown id changes nothing; a failing call changes nothing live, and leaves its frame or none |
| `EngineApi.StorageEngine.Update` | crates/turbomemory_storage/src/engine/write.rs:460-510 | swaps the record of that id for the new one and touches no other; unknown ids and invalid input change nothing; a failing call leaves the live records and the history alone, and its frame or none; one that fails after the old record left memory leaves its frame and everything live but that record |
| `EngineApi.StorageEngine.Flush` | crates/turbomemory_storage/src/engine/mod.rs:897-957 | leaves an empty log, unacknowledged frames gone too, and a snapshot equal to the unchanged live records |
| `Text.SplitOfJoin` | tsm/budget.py:200-212 | splitting joined break-free lines gives the lines back |
| `Text.LinesEnd` | tsm/budget.py:200 | a line ends at every boundary character, a carriage return and line feed counting as one, and at the end of the text; nothing else is taken away |
| `Gist.FactsAreLines` | tsm/budget.py:200-208 | every fact unit read from any text is nonempty, stripped and on one line, on both the line and the sentence path |
| `Gist.ListIsRead` | tsm/budget.py:200-208 | a reply that lists two or more facts, each plain, behind a dash or a star, or numbered, is read as exactly those facts |
| `Gist.LinesAreRead` | tsm/budget.py:200-208 | no line is lost: the facts are, in order, the contents of the lines that have any |
| `Gist.SentencesCover` | tsm/budget.py:201-202 | a text on one line is cut behind each sentence mark that white space follows; nothing but white space is lost and no such mark is left inside a sentence |
| `Gist.FitCompleteFacts` | tsm/budget.py:196-212 | the loop joins the greedily kept facts as bullets |
| `Gist.FitIsWithinBudget` | tsm/budget.py:204-212 | the gist's tokens are within the limit for any text |
| `Gist.KeepIsSubsequence` | tsm/budget.py:204-211 | the kept facts are a subsequence of the input's |
| `Gist.KeepIsMaximal` | tsm/budget.py:204-211 | position by position, a skipped fact could not be added to the finished gist within the limit, a second copy of a kept one included |
| `Gist.KeptIsMaximal` | tsm/budget.py:196-212 | the same for any text and limit, with the kept facts being exactly those at the chosen positions |
| `Gist.GistLines` | tsm/compaction.py:53-62 | the loop reads the lines of a gist without bullets |
| `Gist.StarReadsBack` | tsm/compaction.py:53-62 | a starred line of a gist is read without its star |
| `Gist.PlainReadsBack` | tsm/compaction.py:53-62 | a line without a bullet is read as it is |
| `Gist.GistLinesAt` | tsm/compaction.py:53-62 | no line of a gist is lost: its facts are, in order, the lines that are not empty without their bullet |
| `Gist.FittedGistReadsBack` | tsm/compaction.py:53-62 | re-reading a fitted gist gives back exactly the facts that were kept |
| `Packing.PackIndexes` | tsm/budget.py:147-155 | the loop computes the greedy choice over the candidates |
| `Packing.GreedyIsLexMax` | tsm/budget.py:147-155 | where any other feasible choice first differs from the greedy one, the greedy one takes that candidate |
| `Packing.PackFits` | tsm/budget.py:147-155 | the chosen texts fit the budget and none is blank |
| `Packing.RoleOrderSorts` | tsm/budget.py:162-172 | the candidate order is a permutation of all indexes, sorted by role then recency |
| `Packing.RolesRank` | tsm/budget.py:162-172 | user facts come first, then the system's, then the assistant's, then all others alike |
| `Packing.PackRolePriorityRecentIndexes` | tsm/budget.py:158-173 | greedy choice over that order; an error exactly for mismatched lengths |
| `Packing.RolePackIsLexMax` | tsm/budget.py:147-173 | of all nonblank sets within budget it is the greatest, user facts and newer facts mattering most |
| `Packing.PackRecent` | tsm/budget.py:139-144 | kept and overflow split the texts in order and their tokens add up; kept fits |
| `Packing.RecentIsLexMax` | tsm/budget.py:139-155 | of all nonblank sets within budget the kept one is the greatest, newer texts mattering most |
| `Partition.PartitionByTokenWeight` | tsm/budget.py:215-247 | exactly min(chunk_count, len) nonempty contiguous chunks whose concatenation is the input, none above `max(W, T/K + (W - 1/2) H(K-1) + 1/2)`; an error exactly below one chunk |
| `Partition.TakeChunk` | tsm/budget.py:231-246 | the inner loop takes at least one text and leaves enough; the `end == start` fallback is never reached; the chunk is near its target |
| `Partition.NextLevel` | tsm/budget.py:222-246 | how the average weight left per chunk may grow from one chunk to the next |
| `Partition.HeaviestIs` | tsm/budget.py:222 | the bound's heaviest weight is one or the weight of some text |
| `Selection.SelectUnderBudget` | tsm/budget.py:98-121 | the loops make, step by step, the best choice (earliest of equals) until the cap or nothing eligible is left |
| `Selection.SelectionFits` | tsm/budget.py:98-121 | items are distinct and within the token budget |
| `Selection.ChosenOver` | tsm/budget.py:98-113 | at every step no open item had a larger sum of lam times relevance, minus (1 - lam) times redundancy, plus a fifth for a turn not yet shown |
| `Selection.ChosenFirst` | tsm/budget.py:98-113 | between items that differ in nothing else the more relevant goes first, the less redundant, and the one of a new turn |
| `Selection.RedundancyIs` | tsm/budget.py:104 | redundancy is the highest similarity to a selected item that is no replacement of it or by it, zero if there is none |
| `Selection.ReplacesIff` | tsm/budget.py:91-96 | two items are exempt exactly when one is superseded by the other's id |
| `Selection.CostIs` | tsm/budget.py:69-70 | an item costs a quarter of the characters shown, at least one |
| `Selection.UsedIs` | tsm/budget.py:98-116 | the tokens used are the cost of each selected item, once |
| `Selection.SelectionIsDiverse` | tsm/budget.py:105-107 | no two selected items are near-duplicates unless one replaced the other |
| `Selection.SelectionIsMaximal` | tsm/budget.py:100-121 | below the cap every unselected item does not fit, is too similar to a selected one it did not replace, or is worth no more than the sentinel |
| `Selection.SelectionIsUnique` | tsm/budget.py:98-121 | two finished runs of one problem agree |
| `Compaction.KeepFitsLimit` | tsm/compaction.py:104-118 | the survivors are in order, hold no gist and no barred memory, and fit the limit |
| `Compaction.BuildTails` | tsm/compaction.py:122-133 | the loops build each role's tail: every line of every folded gist of that role, labelled, gist by gist, and then every folded fact of that role, labelled, each exactly once and in order, by explicit positions |
| `Compaction.TailIsTold` | tsm/compaction.py:122-133 | the same of the recursive form |
| `Compaction.PlanChunks` | tsm/compaction.py:135-146 | the chunks hold the user tail exactly once and in order, the other tail whole or not at all, user chunks first, and there are exactly as many as the rule allots |
| `Compaction.LimitsShareExactly` | tsm/compaction.py:150-153 | the per-chunk limits are each at least one and sum exactly to the gist share |
| `Planner.WriteGists` | tsm/compaction.py:148-157 | one fitted gist per chunk whose reply has a fact; a failing call aborts |
| `Planner.GistsFit` | tsm/compaction.py:148-157 | gist tokens never exceed their limits, whatever the summarizer says |
| `Planner.GistsAre` | tsm/compaction.py:148-157 | the gists are, in order, what the summarizer replied about each chunk's own lines, cut to whole facts within that chunk's share, with that chunk's role; only empty ones are left out |
| `Planner.GistLimitIs` | tsm/compaction.py:107-109 | the gist share is the rounded share of the budget, at least one token and not all of them |
| `Planner.ChunkCountIs` | tsm/compaction.py:135 | as many chunks as the share holds, at least one and no more than allowed |
| `Planner.ArgumentErrorIff` | tsm/compaction.py:96-103 | exactly when the arguments are refused, and in which order |
| `Planner.SplitIsValid` | tsm/compaction.py:104-158 | keep and fold partition the indexes, all gists and barred memories are folded, something is folded, and the budget holds |
| `Planner.PlanCompaction` | tsm/compaction.py:65-158 | no plan exactly when everything fits; every plan is valid for any summarizer; the summarizer is asked about every line of every folded user gist and every folded user fact once and in order, and of the others likewise or not at all; it fails exactly when a call fails; argument errors in order |
| `BoundedStores.BuildTokenBoundedStores` | benchmarks/cognitive_eval/budgeting.py:36-85 | both stores fit the budget on both branches, so the "exceeded its budget" assertion is unreachable; what each store holds, the gists being what the summarizer replied, cut to whole facts; each error exactly when its cause is there |
| `Ids.IdsCarryNumber` | tsm/memory.py:425-434 | two equal ids carry the same number whoever the users are (underscores and the `mem_` form included), so ids minted with different numbers differ across all users and calls |
| `Ids.DecimalReads` | tsm/memory.py:425-434 | the number of an id is read back from its digits; no user, or an empty one, gives `mem_` |
| `MemoryApi.Connect` | tsm/memory.py:264-301 | a budget below 16 is refused; otherwise the counter is seeded from the engine's insert sequence and no user is marked; a live id can be minted again exactly if its number is at least the next sequence number |
| `MemoryApi.Memory.NextId` | tsm/memory.py:425-434 | terminates; the id is the first after the counter that is not live; the counter only grows |
| `MemoryApi.Memory.MintIds` | tsm/memory.py:364-368 | a call's ids are distinct, not live, and numbered after the old counter, consecutively when no live id is ahead of it |
| `MemoryApi.MintedApart` | tsm/memory.py:364-368 | ids minted in two calls all differ, whatever became of the inserts and whoever the users are |
| `MemoryApi.Memory.Add` | tsm/memory.py:354-394 | all facts are appended in order under new ids or none is, and a refused batch uses up its numbers; every user over budget stays marked |
| `MemoryApi.Memory.DeleteAll` | tsm/memory.py:760-761 | the deletion loop removes exactly the folded ids whose delete was served, in order, until one raises |
| `MemoryApi.Memory.ApplyPlan` | tsm/memory.py:734-762 | nothing happens unless every folded memory is live; a refused batch changes nothing; otherwise all gists are added and exactly the served deletes done, the mark cleared only if all were; for a stale snapshot, the user then fits if and only if the arrived tokens are at most the budget less what was kept and written |
| `MemoryApi.MakePlan` | tsm/memory.py:716-724 | a pass over budget gets a valid plan that bars superseded memories, whose gists are what the summarizer wrote from the folded memories; it fails exactly when a call of the summarizer does |
| `MemoryApi.PassShares` | tsm/memory.py:717-723 | a pass sets half the budget aside for gists, rounded to even, in one chunk for every 32 of its tokens, at least one and at most four |
| `MemoryApi.Memory.CompactUser` | tsm/memory.py:710-765 | over budget, the result is decided call by call: success if and only if every reply, the embedding, the batch and every delete succeed; then the user is within budget with exactly the planned facts, then exactly the gists written from the folded memories; a user within budget is left alone, so an immediate second pass does nothing; a delete that raises leaves all gists, a prefix of the deletes and the mark; a failing pass changes no record if and only if it failed before its gists were written, or had none and its first delete raised; others are unchanged |
| `MemoryApi.HalfDoneTokens` | tsm/memory.py:742-761 | the tokens a stopped pass leaves, to the unit |
| `MemoryApi.HalfDoneKeeps` | tsm/memory.py:742-761 | a stopped pass leaves every memory it keeps and every one it had not come to |
| `MemoryApi.Memory.Compact` | tsm/memory.py:683-702 | it succeeds when no outside call fails; then everyone asked for fits, or every user when none is named; on an error each user is as before or fits, except at most one, whose pass stopped between two deletes; closed and budget-less objects refuse |
| `MemoryApi.Memory.CompactTouched` | tsm/memory.py:650-656 | users no longer marked fit; a user whose outside calls all succeed is no longer marked; users still marked have the records they had or those of a pass that stopped between two deletes; nobody else changes, for any order and any failures |
| `Passes.PassEffect` | tsm/memory.py:742-761 | on any store in which the folded memories are live, whatever was added or deleted since the snapshot, writing the gists and any number of the deletes leaves everything else, then the gists, at exactly the resulting tokens; other owners are unchanged |
| `Passes.StaleFoldLive` | tsm/memory.py:735-741 | over any writes since the snapshot, a folded id the counter had passed that is still live is still the record it was |
| `Passes.AddedEffect` | tsm/memory.py:734-762 | when facts only arrived meanwhile: the kept facts, then what arrived, then the gists, in that order |
| `Passes.AddedTokens` | tsm/memory.py:734-762 | the tokens then are exactly kept plus gists plus what arrived |
| `Passes.StaysNumbered` | tsm/memory.py:425-434 | every stored id stays minted and numbered within the counter, over any writes |
| `Passes.NumberedSettles` | tsm/memory.py:425-434 | where every stored id was minted with a number the counter has reached, no stored id can be minted again |
| `Passes.MintableIff` | tsm/memory.py:425-434 | a minted id can be minted again exactly while the counter has not reached its number |
| `Passes.DeadStaysDead` | tsm/memory.py:425-434 | a deleted id that the counter had passed never becomes live again, over any writes |
| `Passes.DeadStaysDeadIff` | tsm/memory.py:298-301 | over all courses of events an id stays dead if and only if the counter had passed it |
| `Passes.LateFactsSurvive` | tsm/memory.py:734-762 | a pass whose folded ids the counter had passed keeps every record stored after its snapshot, however the store changed meanwhile |
| `Passes.LateFactsSurviveIff` | tsm/memory.py:734-762 | over all courses of events, a pass whose liveness check succeeds keeps every later record if and only if the counter had passed all its folded ids |
| `Passes.FoldedOnce` | tsm/memory.py:735-741 | once a memory whose id the counter had passed has been folded, any plan that also folds it fails its check at every later moment |
| `Passes.NeverBothIff` | tsm/memory.py:734-762 | over all courses of events before, between and after them, a second pass never applies after a first if and only if they have in common a folded id the counter had passed |
| `Races.SameFold` | tsm/memory.py:715-724 | the snapshot and the superseded ids decide what is folded, whatever the summarizer says, and something always is |
| `Races.OnlyOneApplies` | tsm/memory.py:710-762 | two passes of one snapshot and one superseded set never both apply, over any writes in between, as soon as the counter had passed one folded id |
| `Races.OnlyOneAppliesIff` | tsm/memory.py:710-762 | and only then: over all courses of events that condition is exact |
| `Races.BothApplyIff` | tsm/memory.py:735-762 | with nothing written in between, the second pass applies after the first if and only if they fold no memory in common |
| `Races.BothLeave` | tsm/memory.py:710-762 | when both apply the user is left with what both kept and both sets of gists; the tokens are exact, and under the budget |
| `Races.BothPassesCanEmptyAUser` | tsm/memory.py:710-762 | two facts, each superseded for one of the passes: both plans keep a fact, both apply, nothing is left |
| `Races.GrowingSetBothApply` | tsm/memory.py:710-762 | three facts, nothing superseded for the first pass and the middle one for the second: each plan keeps two, both apply, one is left |
| `Scenarios.FailedPassLosesAFact` | tsm/memory.py:650-656 | a pass whose second delete raises fails, and the first fact is gone |
| `Scenarios.LateFactLeavesUserUnmarked` | tsm/memory.py:710-762 | a fact stored between planning and applying: the pass succeeds, the user is over budget and not marked |
| `Scenarios.ReopenedStoreLosesALateFact` | tsm/memory.py:298-301 | a refused add, an accepted one, a reopened store and two passes of one snapshot: the second deletes a fact stored after the first, under the same id |
| `PassCrash.AnyPrefixLosesNothing` | tsm/memory.py:742-761 | after any number of a pass's log operations, either all folded memories are live or all gists are, and nothing else changed |
| `PassCrash.PassLogsPrefix` | tsm/memory.py:742-761 | a run whose appends are the pass's batch and then its single deletes, with flush steps and restarts in between, has logged a prefix of the pass |
| `PassCrash.KilledPassLosesNothing` | tsm/memory.py:742-761 | killed anywhere in such a run, with any part of the in-flight append in the log, the reopened records are what some first operations of the pass lead to; either all folded memories are live or all gists are, and nothing else changed |
| `Belief.NoNextIff` | crates/turbomemory_graph/src/graph.rs:1427-1459 | there is no next hop exactly when no supersession edge to a memory leaves the node |
| `Belief.LatestDecides` | crates/turbomemory_graph/src/graph.rs:1449-1459 | of all supersession edges to a memory out of a node, the one inserted last decides |
| `Belief.BeliefHead` | crates/turbomemory_graph/src/graph.rs:1467-1484 | the walk terminates on every graph and returns its specified head |
| `Belief.HeadIsCurrentIff` | crates/turbomemory_graph/src/graph.rs:1461-1484 | the head is reached by supersessions, and is superseded by nothing if and only if following them ever ends |
| `Belief.ChainAgrees` | crates/turbomemory_graph/src/graph.rs:1461-1484 | in a chain that ends, every member has the same head, and the head is its own |
| `Belief.NewerNeverCycles` | crates/turbomemory_graph/src/graph.rs:1449-1459 | when every supersession points to a newer memory, every chain ends |
| `Belief.MutualSupersessionHasNoCurrent` | crates/turbomemory_graph/src/graph.rs:1467-1484 | two memories replacing each other are each reported superseded by the other |
| `Recall.Pool.ResolveBeliefs` | tsm/memory.py:578-620 | every candidate keeps its id, text and role; exactly the stale ones are marked; scores change only for current beliefs of stale candidates, and become the largest of their own, zero, and the undemoted scores of what they replaced; behind the pool stand exactly the missing ones that are live and visible, at that place, in first-owed order; nothing is brought in unless supersessions are verified |
| `Recall.ResolvesExactly` | tsm/memory.py:578-620 | the same of the recursive form, for every pool |
| `Recall.PriorsAre` | tsm/ranking.py:33-39 | the weight of every role; only a question in the first person weighs them |
| `Recall.CurrentIsPresent` | tsm/memory.py:604-615 | a live, visible current belief of a candidate is always in the resolved pool |
| `Recall.CurrentBeforeStale` | tsm/memory.py:552-570 | in any sorted arrangement a current belief precedes every memory it replaced, whenever demotion times the stale prior is at most the current prior |
| `Recall.CutHoldsCurrent` | tsm/memory.py:570-572 | every `pool[:top_k]`, for any integer, that holds a stale memory holds its live, visible current belief, earlier |
| `Recall.BroughtInLeadsIff` | tsm/memory.py:578-620 | for one candidate and its brought-in belief, the belief leads if and only if the score is not positive or the demotion outweighs the priors |
| `Recall.GraphHeadsAreCurrent` | crates/turbomemory_storage/src/engine/belief.rs:275-303 | with chains that end, the heads the engine reports are themselves current |
| `Verification.ReadVerdicts` | tsm/verification.py:177-190 | for every position in the batch the verdict of the first line about it that holds one, and no others |
| `Verification.ReadAtIff` | tsm/verification.py:177-190 | what is read for a position is the verdict of the first line with its number, counted from one, that holds one |
| `Verification.RecordVerdicts` | tsm/verification.py:338-342 | each verdict is written to the pair its position stands for, and to the cache under that pair's key |
| `Verification.Verifier.Judge` | tsm/verification.py:325-343 | cached pairs keep their verdict; every other pair gets the line of its own position in its own request; a failed request leaves its pairs unanswered; the cache grows exactly by the verdicts given |
| `Verification.JudgedTruly` | tsm/verification.py:325-343 | with any model that says of each position what is true of the pair sent there, every pair the cache does not know gets what is true of it and is cached under its own key, unless its request failed |
| `Verification.CachedTruly` | tsm/verification.py:338-342 | what such a call adds to the cache is true of its pair |
| `Verification.Sorted` | tsm/verification.py:368 | all rows, closest first, earlier first on ties |
| `Verification.Choose` | tsm/verification.py:363-373 | exactly one triple for each older memory with an accepted verdict: its closest accepted row, earliest on ties; none for others; best match first |
| `Verification.WinsIff` | tsm/verification.py:363-373 | a row wins exactly if its verdict is accepted and every other accepted row of its older memory is less close, or as close and later |
| `Verification.Verifier.Verify` | tsm/verification.py:359-375 | proposals without two texts are dropped; the result is exactly the winners among the judged rest |
| `Verification.UsableAt` | tsm/verification.py:359-362 | the proposals judged are exactly those whose memories both have a text, in order |
| `Verification.HasTextIff` | tsm/verification.py:362 | an unknown memory has no text, and neither has one whose text is empty |
| `Embedder.Client.EmbedBatch` | tsm/embedders.py:145-161 | accepted exactly when the request succeeded with the right number and size of vectors; every retry counts as a call |
| `Embedder.BatchesAreFull` | tsm/embedders.py:133-137 | every batch but the last is full, and the last is not empty |
| `Embedder.BatchesConcat` | tsm/embedders.py:133-137 | the batches together are the missing texts |
| `Embedder.MissingInOrder` | tsm/embedders.py:128-132 | missing texts are sent in the order of their first occurrence |
| `Embedder.Client.Fetch` | tsm/embedders.py:133-137 | the missing texts in batches, in order, up to the first that is not answered or answered in the wrong shape, which is the failure; the cache stays the service's own function and gains exactly the answered texts |
| `Embedder.FailsIff` | tsm/embedders.py:133-161 | such a run of requests fails if and only if some batch is not answered, or answered in the wrong shape |
| `Embedder.Client.Encode` | tsm/embedders.py:120-142 | succeeds if and only if there is a text and every batch of missing texts is answered well; then every row is the direct embedding of its text, a blank one as a single space; only missing texts are sent, each once; an empty list is an error |
| `Filters.PbRoundTrip` | crates/turbomemory_api/src/service.rs:291-359 | a filter whose own values can be printed and read, written as protobuf, converts back to itself exactly when it has at most 32 levels, else the depth error |
| `Filters.JsonRoundTrip` | crates/turbomemory_api/src/service.rs:371-487 | the same for JSON |
| `Filters.RangeMeans` | crates/turbomemory_api/src/service.rs:404-446 | what any range object means: an end without a number is open, a number is included unless its flag is false, so also when the flag is absent |
| `Filters.LeafMeans` | crates/turbomemory_api/src/service.rs:390-461 | what any equality or text object means: a missing value is null, a missing field or query an error |
| `Filters.JsonRefuses` | crates/turbomemory_api/src/service.rs:384-485 | how JSON that is no filter is refused: not an object, no operation, an unknown one, a list or part missing |
| `Filters.PbRefuses` | crates/turbomemory_api/src/service.rs:291-359 | a message without a kind and a value that does not parse are refused |
| `Filters.FormsAgree` | crates/turbomemory_api/src/service.rs:291-487 | both forms of one filter are accepted or refused together, with the same tree |
| `Filters.JsonStaysShallow` | crates/turbomemory_api/src/service.rs:378-383 | no accepted JSON gives a tree of more than 32 levels |
| `Filters.JsonHasCanonicalForm` | crates/turbomemory_api/src/service.rs:371-487 | any accepted JSON means the same as the canonical writing of what it converts to |

## Left out

- Floating point: vectors, scores, cosines and JSON numbers are exact reals; rounding, NaN, infinities and overflow are not modelled, and the square root is a parameter that is exact.
- Randomness: the sign vector drawn from a seed is any vector of signs.
- Serialization and checksums: bincode and CRC-32 are parameters with the round-trip property; the native byte order of the log header is taken as little-endian.
- RaBitQ encoding, the alpha scale's bytes, TurboQuant's codebooks and residual scores: only projection, decoding and scoring are modelled.
- Validation of a record (finite embedding, JSON payload): one condition on a record's vector length.
- Version-1 logs: readable in the log model, but the engine machine starts from a current log.
- Segments, HNSW, text and payload indexes, the concept graph, access counters, dedup, eviction and gist-before-evict.
- Locks: writes and flushes are atomic steps of the machines, as the write lock and the flush barrier make them.
- Unicode digits: a numbered bullet is recognized by ASCII digits only, where the regular expression also takes others.
- `select_under_budget(method="truncate")`, `truncate_to_budget` and `fit_text_to_budget`: one greedy loop of the kind already covered, and a clip.
- Fact extraction, concepts, timestamps, turn indexes, time tags and rerankers in `add` and `recall`.
- `belief_lineage`: only the forward half, which is the head walk.
- Reply parsing in the verifier: a reply arrives as its numbered lines with their verdict words; hash keys are an arbitrary function of the pair.
- `NLIVerifier`, the verdict and embedding cache files, the waiting between retries, REST and gRPC handlers.
- `consolidate`: its engine part and its vetting part are separate members; only the compaction loop is modelled as one method.
- CrashSafety.EveryRunIsDurable: has no step for a write that fails after its frame was logged; `Strays.ReopensAsAcknowledgedIff` covers runs with such writes.
- Strays.StepOk: does not go on after a restart that finds an id twice, where the id index names only one of the records; an index update that fails is taken to have added nothing.
- Strays.ReopensAsAcknowledgedIff: speaks of the same runs, so not of those that go on after a restart that found an id twice.
- MemoryApi.Memory.DeleteAll: takes a delete that raises to have logged nothing; at the engine, `EngineApi.StorageEngine.Delete` has both outcomes.
- WalFile.LogFile.Append: takes the seek after a failed write to succeed.
- Recall.CurrentBeforeStale: assumes that current beliefs are not themselves superseded, which `Belief.HeadIsCurrentIff` characterizes.
- Embedder.Client.Encode: assumes an answer of the right shape is the service's embedding of each text in order.
