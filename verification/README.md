# Sui tooling, verified

A Dafny model of the stateful cores of the Sui repository and proofs of what they keep over every run.

- **Archive** (`ChainTypes`, `Manifest`, `CheckpointWriter`, `WriterInvariant`, `ArchiveProtocol`, `WriterRolls`,
  `ArchiveReader`, `EpochLookup`, `SyncStore`, `SummaryReads`, `ManifestCodec`). One task writes the checkpoints of a chain
  into paired files and extends a manifest; another uploads each pair and then the MANIFEST; either may stop
  anywhere and a start resumes from the remote MANIFEST. A reader locates the files of a range and loads
  verified checkpoints into a store. The proofs go end to end: a reader that takes a manifest at any moment
  of any run, and fetches each file at any later moment or not at all, is handed the chain's checkpoints of its
  range up to the first missing file and ends up holding exactly those, verified. So is one that reads summaries only.
  Files are cut exactly at epoch changes, at the size limit and on timeouts.
- **Simulacrum** (`ObjectIndex`, `Simulacrum`, `SimulacrumInvariant`, `SimulacrumHistory`). The simulated chain:
  executing transactions, sealing checkpoints, advancing the clock and the epoch, over an in-memory store whose
  two-level object index refines a plain replay. The history says where every transaction, stamp and committee
  comes from.
- **Metered channel** (`MeteredChannel`). The gauge of a bounded channel under every interleaving.
- **Analytics indexer** (`Analytics`, `AnalyticsRuns`, `AnalyticsGaps`). Cutting a checkpoint stream into
  files, uploading them in order, and resuming after a crash from the remote listing.
- **Heap measurement** (`MallocSize`), **load search** (`LoadSearch`), **package graph** (`PackageGraph`)
  and **histogram reporter** (`Histogram`).

Objects whose methods update fields are classes, and each method is proved to compute a specification
function of the old state (`AfterCut`, `AfterProcess`, `AfterResult`, ...). The lemmas are about those
functions and about runs: sequences of states whose neighbours are related by a step.

Inputs from outside are parameters: the chain is a function from numbers to checkpoints; the hash is any
function for files (`ManifestCodec` likewise), while summary and contents digests are injective
constructors; clocks are a `timedOut` flag; the Move executor is an `outcome` or `Env` argument; a signature
is the committee that made it; the size of an encoded blob is any function of the contents.

## Findings

Places where the code does less than its comments or callers suggest. Each has a lemma.

- `verify_manifest` promises files for every checkpoint up to the latest; it checks contiguity only, so a
  manifest may claim more than its files cover (`ArchiveReader.AcceptedMayMissTheLatest`). The promise holds
  exactly when some summary entry ends at or after the manifest's next checkpoint
  (`ArchiveReader.AcceptedCoversLatestIff`).
- `read_manifest` accepts files that `write_manifest` does not lay out. It looks for a blob in everything after
  the magic, so bytes may follow the blob (`ManifestCodec.AcceptedNeedNotBeCanonical`, for every hash), its length
  need not be in shortest form, and the blob may run into the checksum (`ManifestCodec.LengthDoesNotDecide`, for a
  hash made for the purpose). An accepted
  file is the written one exactly when the length is in shortest form and the blob ends where the checksum
  starts (`ManifestCodec.AcceptedIsCanonicalIff`).
- The first files a writer opens after a start have the magic written but not counted, so they may exceed the commit
  size by it (`WriterRolls.FirstFileCountsFromZero`). How far each file of two or more checkpoints can go is
  `WriterRolls.PublishedFilesKeepTheLimit`.
- The simulated chain's sequence number saturates: a checkpoint after number 2^64 - 1 replaces it. A run still
  has every checkpoint it sealed exactly when it sealed at most 2^64 - 1 (`SimulacrumInvariant.EverySealIsStoredIff`);
  `SimulacrumInvariant.SealsCanBeLost` is a run that does not.
- The channel gauge can be negative and can exceed the capacity by one (`MeteredChannel.GaugeCanBeNegative`,
  `MeteredChannel.GaugeCanExceedCapacity`); exactly when is `MeteredChannel.GaugeOutOfRangeIff`.
- The analytics upload skips empty files, so the remote listing can have holes. Rows are never lost or
  repeated, and every run is free of holes exactly when no checkpoint with rows follows one without
  (`AnalyticsGaps.GaplessIffNeverReturns`).
- An analytics process that resumes at checkpoint 1 is fed checkpoint 0 and panics; no other position does that
  (`AnalyticsRuns.ResumePanicsIffAtOne`). Such a run exists exactly when checkpoint 0 has rows
  (`AnalyticsGaps.ResumeAtOnePanics`, `AnalyticsGaps.ResumesAtOneIff`).
- The package graph keeps one edge into each package, so a second way to reach a package is not in it
  (`PackageGraph.DiamondIsIncomplete`). It is complete exactly when no reached package has a second dependant
  (`PackageGraph.CompleteIffOneDependant`).
- A load search that starts at or above the breaking point never brackets it, even when it finds both bounds
  (`LoadSearch.BracketsIffStartedBelow`, `LoadSearch.BoundsCanMiss`), and one that starts at 0 stays there. It
  pins the breaking point exactly when it starts above 0 and below it (`LoadSearch.PinsIff`).

## Model

| member | source | states |
|---|---|---|
| `Manifests.RenderInjective` | crates/sui-archival/src/lib.rs:117-131 | two files share a rendered path only if type, epoch and start agree, so a path identifies a file |
| `CheckpointWriters.CheckpointWriter.constructor` | crates/sui-archival/src/writer.rs:73-120 | a new writer resumes at the manifest's next checkpoint and epoch, with that epoch's local directory cleared |
| `CheckpointWriters.CheckpointWriter.Cut` | crates/sui-archival/src/writer.rs:222-237 | a non-empty range is staged as two files, added to the manifest and queued; an empty one changes nothing |
| `CheckpointWriters.CheckpointWriter.Reset` | crates/sui-archival/src/writer.rs:291-302 | the open range becomes empty at its end, with fresh files |
| `CheckpointWriters.CheckpointWriter.WriteAsBlob` | crates/sui-archival/src/writer.rs:132-185 | the whole write: epoch change, size and time limits, errors in their order; when it cuts is `WriterRolls.WritesRollExactlyWhen` |
| `WriterRolls.WriteRolls` | crates/sui-archival/src/writer.rs:132-185 | a write adds the open range to the manifest exactly when the range is not empty and the epoch changes, the time is up, or its bytes and the new blob exceed the limit; it succeeds exactly when no counter is exhausted and, if it cuts, the upload task listens |
| `WriterRolls.WritesRollExactlyWhen` | crates/sui-archival/src/writer.rs:164-172 | the same in every reachable state, the open file counting four bytes of magic unless it is the first after a start |
| `WriterRolls.PublishedFilesKeepTheLimit` | crates/sui-archival/src/writer.rs:164-172 | in every run a published file of two or more checkpoints holds at most the commit size in magic and blobs, the first after a start counting from 0 |
| `WriterRolls.FirstFileCountsFromZero` | crates/sui-archival/src/writer.rs:98-120 | a run in which the first two checkpoints share a file exactly when their blobs without the magic fit the commit size |
| `WriterRolls.NothingIsLeftOver` | crates/sui-archival/src/writer.rs:82-90 | in every run each local file of a running writer's epoch is held open or belongs to a range in its manifest, whatever earlier processes left; the channel holds at most 100 updates |
| `WriterInvariant.CutManifest` | crates/sui-archival/src/writer.rs:222-237 | a cut appends exactly the open range to a manifest that tiles the chain |
| `WriterInvariant.WriteOk` | crates/sui-archival/src/writer.rs:132-185 | writing the next checkpoint of the chain keeps the invariant and fires no assertion; only the channel or an exhausted counter fails it |
| `WriterInvariant.WriteTakesOnlyItsNext` | crates/sui-archival/src/writer.rs:132-185 | whatever is offered, a write that succeeds took exactly the next checkpoint, of this epoch or the next, with contents that are what its digest says |
| `ArchiveProtocol.StepKeeps` | crates/sui-archival/src/writer.rs:347-499 | every step of both tasks, every stop and every start keeps the archive invariant |
| `ArchiveProtocol.ManifestFilesExist` | crates/sui-archival/src/writer.rs:437-487 | in every interleaving each file named by the remote MANIFEST exists remotely and has the recorded digest |
| `ArchiveProtocol.PublishedFilesAreFinal` | crates/sui-archival/src/writer.rs:437-487 | later manifests extend earlier ones, and a published file is never overwritten, by this process or a resumed one |
| `ArchiveProtocol.PublishedManifestTiles` | crates/sui-archival/src/lib.rs:192-208 | content and summary entries come in pairs over equal, non-empty, single-epoch ranges that tile from 0 to the next checkpoint |
| `ArchiveProtocol.NoAssertionFires` | crates/sui-archival/src/writer.rs:132-157 | in every reachable state the open range starts where the manifest ends and the next write asserts nothing false |
| `ArchiveProtocol.UploadsFindTheirFiles` | crates/sui-archival/src/writer.rs:449-499 | the upload task always finds the staged file it is about to copy, and the copied one it is about to remove |
| `ArchiveReader.SortByStart` | crates/sui-archival/src/reader.rs:185-190 | a sorted permutation of the files |
| `ArchiveReader.SearchByStart` | crates/sui-archival/src/reader.rs:375-391 | on any sorted list, the index of a matching key or the insertion point between smaller and larger keys |
| `ArchiveReader.AcceptedIsProper` | crates/sui-archival/src/reader.rs:167-209 | an accepted manifest has summary and content entries over the same ranges, contiguous from 0, and the pairs are those |
| `ArchiveReader.ProperIsAccepted` | crates/sui-archival/src/reader.rs:167-209 | and every manifest that pairs up like that with no start repeated, its entries in any order, is accepted as those pairs |
| `ArchiveReader.SelectRefusesIff` | crates/sui-archival/src/reader.rs:349-372 | a read is refused exactly when the start is beyond the archive or no file is listed |
| `ArchiveReader.AcceptedCoversIff` | crates/sui-archival/src/reader.rs:167-209 | an accepted manifest has files for everything below a number exactly when one of its summary entries ends there or later |
| `ArchiveReader.AcceptedCoversLatestIff` | crates/sui-archival/src/reader.rs:165-209 | the promised cover up to the latest checkpoint holds exactly when a summary entry reaches the manifest's next checkpoint |
| `ArchiveReader.AcceptedMayMissTheLatest` | crates/sui-archival/src/reader.rs:167-209 | an accepted manifest that claims ten checkpoints and covers five |
| `ArchiveReader.WriterManifestAccepted` | crates/sui-archival/src/reader.rs:167-209 | every manifest of the writer is accepted and paired up segment by segment |
| `ArchiveReader.ReadHandsOverTheRange` | crates/sui-archival/src/reader.rs:349-459 | for every range from an archived start, whatever files could be fetched: the archived checkpoints of the range from its start on, once, in order, with their own contents, and all of them exactly when every file came; no assertion and no underflow, whatever search meets the standard library's contract |
| `ArchiveReader.ReadDuringRun` | crates/sui-archival/src/reader.rs:349-459 | the same for a manifest taken at one moment of a run and files each fetched at a later moment of its own, or not at all |
| `ArchiveReader.FilesStayFetchable` | crates/sui-archival/src/reader.rs:393-405 | at every later moment the remote store has all files such a reader asks for |
| `ArchiveReader.SelectCrashesIff` | crates/sui-archival/src/reader.rs:349-391 | choosing the files panics exactly when an assertion on the manifest fails: the start index never underflows |
| `EpochLookup.NextAfterEpochOfTiling` | crates/sui-archival/src/lib.rs:170-191 | on a manifest that tiles the chain: the smallest archived checkpoint of a later epoch, or the maximum if none is archived |
| `EpochLookup.NextAfterEpochInRun` | crates/sui-archival/src/lib.rs:170-191 | the same for every manifest published in any run |
| `EpochLookup.AnswerIsFirstLater` | crates/sui-archival/src/lib.rs:170-191 | an answer on any manifest: its summary files follow each other from 0, and the answer is the start of the first of a later epoch, or the maximum |
| `EpochLookup.ChainsAreAnswered` | crates/sui-archival/src/lib.rs:170-191 | and every manifest whose summary files follow each other from 0, none empty, is answered |
| `SyncStore.GetOrInsertKeeps` | crates/sui-archival/src/reader.rs:512-551 | any summary, valid or not, leaves a contiguous verified prefix; an error changes nothing; the result is what is stored |
| `SyncStore.ProcessKeeps` | crates/sui-archival/src/reader.rs:420-455 | any pair keeps the verified prefix, stores contents only under a verified summary with their digest, and panics nothing |
| `SyncStore.ReadKeepsVerifiedPrefix` | crates/sui-archival/src/reader.rs:349-459 | any read of any manifest over any data, with any search result where range starts repeat, stopped anywhere, leaves a verified prefix |
| `SyncStore.SummariesKeepVerifiedPrefix` | crates/sui-archival/src/reader.rs:263-317 | so does the verifying branch of `read_summaries`, file selection and watermark included, and it touches no contents |
| `SyncStore.ReadersRaiseWatermarks` | crates/sui-types/src/storage.rs:696-722 | no read ever lowers a watermark |
| `SummaryReads.SummariesDuringRun` | crates/sui-archival/src/reader.rs:263-317 | the summaries handed over in any run: the chain's from the start of the range, in order, up to the first file that did not come, all of them exactly when every summary file came |
| `SummaryReads.ReadSummariesLoadsDuringRun` | crates/sui-archival/src/reader.rs:263-317 | a store holding the first k checkpoints that reads summaries from at most k, during any run, ends up with exactly the chain's up to there, counted and with the verified watermark; it goes through exactly when every summary file came |
| `SyncStore.ReadersPanicIff` | crates/sui-archival/src/reader.rs:263-459 | both readers panic exactly when an assertion on the manifest fails; nothing in the files makes them |
| `SyncStore.LoadingStore.LoadSummary` | crates/sui-archival/src/reader.rs:303-312 | one summary: verify or find it, raise the verified watermark, count it |
| `SyncStore.ReadLoadsDuringRun` | crates/sui-archival/src/reader.rs:349-459 | a store holding the first k checkpoints that reads a range from at most k, during any run, with files fetched at any moments or not at all, ends up with the chain and contents up to some c, every checkpoint and transaction of the range counted once and both watermarks risen to exactly what came; it never panics, goes through exactly when every file came, and then c is the end of the archived range |
| `SyncStore.LoadingStore.InsertVerified` | crates/sui-types/src/storage.rs:641-672 | inserting a checkpoint also inserts the committee it announces |
| `SyncStore.LoadingStore.GetOrInsertVerified` | crates/sui-archival/src/reader.rs:512-551 | computes the specified lookup, verification and insertion |
| `SyncStore.LoadingStore.Load` | crates/sui-archival/src/reader.rs:420-455 | one pair: verify, compare digests, store contents, raise the watermarks |
| `SyncStore.LoadingStore.LoadAll` | crates/sui-archival/src/reader.rs:393-459 | the pairs in order up to the first error, with both counters running on |
| `ManifestCodec.U64RoundTrip` | crates/sui-archival/src/lib.rs:296-310 | eight little-endian bytes decode to the number they encode |
| `ManifestCodec.ManifestRoundTrip` | crates/sui-archival/src/lib.rs:296-303 | BCS decoding undoes encoding for every manifest, every file list included |
| `ManifestCodec.BlobRoundTrip` | crates/sui-storage/src/blob.rs:26-75 | reading a blob returns the data written and leaves what follows |
| `ManifestCodec.ReadUndoesWrite` | crates/sui-archival/src/lib.rs:265-310 | `read_manifest` of what `write_manifest` lays out returns the manifest |
| `ManifestCodec.WriteIsInjective` | crates/sui-archival/src/lib.rs:296-310 | two manifests never share a file |
| `ManifestCodec.AcceptedCarriesItsChecksum` | crates/sui-archival/src/lib.rs:265-294 | every accepted byte string starts with the magic and ends with the checksum of all its other bytes |
| `ManifestCodec.AcceptedChangeIsACollision` | crates/sui-archival/src/lib.rs:265-294 | a changed file that keeps its checksum is accepted only on a hash collision |
| `ManifestCodec.ManifestCanonical` | crates/sui-archival/src/lib.rs:288-293 | the manifest decoder accepts nothing but encodings, each of the manifest it returns |
| `ManifestCodec.AcceptedIsCanonicalIff` | crates/sui-archival/src/lib.rs:265-310 | an accepted file is what `write_manifest` lays out exactly when its length prefix is in shortest form and its blob ends where the checksum starts |
| `ManifestCodec.AcceptedNeedNotBeCanonical` | crates/sui-archival/src/lib.rs:265-294 | for every manifest and hash, an accepted file with a byte between blob and checksum |
| `ManifestCodec.LengthDoesNotDecide` | crates/sui-archival/src/lib.rs:265-294 | for every short manifest a hash, made for the purpose, and an accepted file of the written length that is not the written file |
| `ObjectIndexes.ObjectTable.Apply` | crates/simulacrum/src/store.rs:221-238 | deletes, then writes in any order, updating the live versions and the history |
| `ObjectIndexes.IndexRefinesReplay` | crates/simulacrum/src/store.rs:126-135 | after any updates `get_object` answers like a plain map that replays them, and every live version is in the history |
| `ObjectIndexes.OwnedObjectsOfReplay` | crates/simulacrum/src/store.rs:148-155 | `owned_objects` yields exactly the live objects of the owner |
| `ObjectIndexes.UpdateKeepsVersion` | crates/simulacrum/src/store.rs:221-238 | an update keeps a recorded version exactly when it does not write another object at the same id and version |
| `ObjectIndexes.HistoryIsComplete` | crates/simulacrum/src/store.rs:221-238 | without conflicting writes every write can be read at its version |
| `ObjectIndexes.HistoryIsCompleteIff` | crates/simulacrum/src/store.rs:221-238 | everything written can be read at its version exactly when no two updates write different objects at the same id and version |
| `ObjectIndexes.FreshHasNoConflict` | crates/simulacrum/src/store.rs:221-238 | fresh versions are such a case |
| `Simulacra.Simulacrum.ExecuteTransaction` | crates/simulacrum/src/lib.rs:126-148 | a successful call stores and buffers the transaction; a failed one changes nothing |
| `Simulacra.Simulacrum.SealCheckpoint` | crates/simulacrum/src/checkpoint_builder.rs:76-124 | builds, certifies and stores the next checkpoint |
| `Simulacra.Simulacrum.CreateCheckpoint` | crates/simulacrum/src/lib.rs:154-162 | a checkpoint within the epoch |
| `Simulacra.Simulacrum.NextConsensusRound` | crates/simulacrum/src/epoch_state.rs:67-71 | hands out the current round and moves on |
| `Simulacra.Simulacrum.AdvanceClock` | crates/simulacrum/src/lib.rs:168-182 | a prologue transaction; its round is `SimulacrumInvariant.RoundsAreNeverRepeated`, its time `SimulacrumHistory.TransactionsQuoteTheStore` |
| `Simulacra.Simulacrum.AdvanceEpoch` | crates/simulacrum/src/lib.rs:187-224 | a change-epoch transaction with the epoch's gas, the end-of-epoch checkpoint, and the new epoch state |
| `SimulacrumInvariant.SealPanicsIff` | crates/simulacrum/src/checkpoint_builder.rs:76-124 | in any state, sealing panics exactly for a member without a key, a committee of another epoch, or an epoch to come that is not the next |
| `SimulacrumInvariant.OperationKeeps` | crates/simulacrum/src/lib.rs:126-224 | every public operation keeps the invariant, and it panics exactly when a system transaction is refused or a committee member has no key to sign a checkpoint with |
| `SimulacrumInvariant.RunKeeps` | crates/simulacrum/src/lib.rs:126-224 | every run that seals at most 2^64 - 1 checkpoints, however long, keeps the invariant, with one checkpoint more than seals |
| `SimulacrumInvariant.CheckpointsFormAChain` | crates/simulacrum/src/store.rs:159-179 | in every run the stored checkpoints are numbered without gap, linked by digest, found by digest, with their contents stored |
| `SimulacrumInvariant.NothingIsLostOrRepeated` | crates/simulacrum/src/checkpoint_builder.rs:42-124 | checkpoint contents followed by the buffer are exactly the executed transactions in order, and the totals add up |
| `SimulacrumInvariant.EpochsStayInStep` | crates/simulacrum/src/store.rs:181-193 | builder, epoch state and committees agree on the epoch, and each checkpoint was certified by the committee of its epoch |
| `SimulacrumInvariant.RoundsAreNeverRepeated` | crates/simulacrum/src/epoch_state.rs:31-71 | every executed prologue names its epoch and the number of prologues that epoch had before it, so no two executed prologues share epoch and round |
| `SimulacrumHistory.LogFollowsTheOperations` | crates/simulacrum/src/lib.rs:126-224 | the executed transactions are one for each operation that got one executed, in order |
| `SimulacrumHistory.TransactionsQuoteTheStore` | crates/simulacrum/src/lib.rs:126-208 | each is what its operation asked for: a user transaction unchanged, a prologue stamped with the clock read just before plus the duration, a change of epoch with that clock, the next epoch and the protocol version its epoch began with |
| `SimulacrumHistory.CheckpointsAreStamped` | crates/simulacrum/src/checkpoint_builder.rs:76-124 | each checkpoint holds transactions of its own epoch only, has the clock as it stood after them, and carries end-of-epoch data (next committee and protocol version) exactly when the last of them changed the epoch |
| `SimulacrumHistory.EpochsFollowTheSystemState` | crates/simulacrum/src/lib.rs:209-224 | the committee of every epoch and the protocol version in force are those of the system state the epoch began with |
| `SimulacrumHistory.ExecutionsAreFoundIff` | crates/simulacrum/src/store.rs:195-215 | every executed transaction, and all effects, are found under their digest exactly when no two with one digest differ |
| `SimulacrumHistory.NothingElseIsFound` | crates/simulacrum/src/store.rs:108-117 | no other digest is found but those of genesis |
| `SimulacrumInvariant.RollingGasIsTheEpochSum` | crates/simulacrum/src/checkpoint_builder.rs:86-124 | each rolling gas summary is the sum over its epoch's transactions up to and including its checkpoint |
| `SimulacrumInvariant.ChangeEpochClosesItsEpoch` | crates/simulacrum/src/lib.rs:187-224 | every change-epoch transaction carries the gas of everything before it in its epoch and is the last of its epoch |
| `SimulacrumInvariant.ObjectsFollowTheReplay` | crates/simulacrum/src/store.rs:195-238 | object lookups on a running chain answer like the replay of everything written and deleted |
| `SimulacrumInvariant.OwnersFollowTheReplay` | crates/simulacrum/src/store.rs:148-155 | on a running chain `owned_objects` yields exactly the live objects of the owner |
| `SimulacrumInvariant.RunsKeepEveryVersionIff` | crates/simulacrum/src/store.rs:131-135 | everything a run ever wrote can be read at its version exactly when no two of its writes conflict |
| `SimulacrumInvariant.SealKeepsPreviousIffBelowLimit` | crates/simulacrum/src/checkpoint_builder.rs:86-124 | one seal keeps the previous checkpoint exactly while its number is below the u64 maximum |
| `SimulacrumInvariant.EverySealIsStoredIff` | crates/simulacrum/src/checkpoint_builder.rs:86-124 | every checkpoint a run sealed is still stored exactly when it sealed at most 2^64 - 1 |
| `SimulacrumInvariant.SealsCanBeLost` | crates/simulacrum/src/checkpoint_builder.rs:86-124 | a run of 2^64 seals, from any good genesis whose committee can sign, that has lost one |
| `MeteredChannel.RunKeeps` | crates/mysten-metrics/src/metered_channel.rs:46-192 | in every interleaving the gauge formula, the capacity bound, the total and the queue order hold |
| `MeteredChannel.GaugeIsOccupancyWhenQuiescent` | crates/mysten-metrics/src/metered_channel.rs:46-192 | when every operation has reported itself the gauge is the occupancy, within 0 and the capacity, and the total counts the received values |
| `MeteredChannel.GaugeInEveryState` | crates/mysten-metrics/src/metered_channel.rs:46-192 | gauge = queued + permits - unreported pushes + unreported pop; values are received in order, none lost or repeated |
| `MeteredChannel.GaugeOutOfRangeIff` | crates/mysten-metrics/src/metered_channel.rs:46-192 | exactly when the gauge is negative, and exactly when it exceeds the capacity, then by one |
| `MeteredChannel.GaugeCanBeNegative` | crates/mysten-metrics/src/metered_channel.rs:130-139 | a run whose gauge is -1 |
| `MeteredChannel.GaugeCanExceedCapacity` | crates/mysten-metrics/src/metered_channel.rs:46-139 | a run whose gauge is the capacity plus one |
| `MeteredChannel.ClosedTakesOnlyReserved` | crates/mysten-metrics/src/metered_channel.rs:76-192 | a closed channel stays closed, and from then on sends at most what was reserved before |
| `Analytics.AnalyticsProcessor.constructor` | crates/sui-analytics-indexer/src/analytics_processor.rs:92-131 | a new processor stands at the resume position in epoch 0 |
| `Analytics.AnalyticsProcessor.Cut` | crates/sui-analytics-indexer/src/analytics_processor.rs:137-150 | a non-empty range is staged and queued for upload |
| `Analytics.AnalyticsProcessor.Reset` | crates/sui-analytics-indexer/src/analytics_processor.rs:174-185 | an empty range at the end of the last one |
| `Analytics.AnalyticsProcessor.ProcessCheckpoint` | crates/sui-analytics-indexer/src/analytics_processor.rs:48-88 | takes a checkpoint in; panics exactly for a past epoch or for another checkpoint than the next |
| `AnalyticsRuns.RecoverIsEnd` | crates/sui-analytics-indexer/src/lib.rs:259-283 | the resume position is the end of the last uploaded file, in whatever order the store lists its files |
| `AnalyticsRuns.StepKeeps` | crates/sui-analytics-indexer/src/analytics_processor.rs:48-236 | processing, uploading, crashing and resuming keep the invariant |
| `AnalyticsRuns.CutFilesTile` | crates/sui-analytics-indexer/src/analytics_processor.rs:48-150 | the files a process cuts tile what it processed, each in one epoch and at most max(1, interval) wide |
| `AnalyticsRuns.DeliveryCutsIff` | crates/sui-analytics-indexer/src/analytics_processor.rs:48-88 | taking a checkpoint in cuts exactly when the range is non-empty and the epoch changes, the interval is full or the time is up |
| `AnalyticsRuns.UntimedFilesAreFull` | crates/sui-analytics-indexer/src/analytics_processor.rs:66-73 | in a run without timeouts every file is max(1, interval) wide or ends its epoch |
| `AnalyticsRuns.RunClearsLeftovers` | crates/sui-analytics-indexer/src/analytics_processor.rs:165-172 | in every run, from epoch 1 on, the local files of the current epoch are those waiting for upload, whatever earlier processes left |
| `AnalyticsRuns.UploadsFindTheirFile` | crates/sui-analytics-indexer/src/analytics_processor.rs:191-236 | the uploader finds each queued file with exactly the rows of its range |
| `AnalyticsRuns.RemoteRowsAreAPrefix` | crates/sui-analytics-indexer/src/lib.rs:259-283 | in every run the remote rows are exactly the rows of the checkpoints before the resume position |
| `AnalyticsRuns.RemoteFilesAreDisjoint` | crates/sui-analytics-indexer/src/analytics_processor.rs:191-236 | remote ranges are disjoint and ascending, so no upload replaces another |
| `AnalyticsRuns.ResumePanicsIffAtOne` | crates/sui-analytics-indexer/src/lib.rs:254-256 | a resumed process takes its first checkpoint without a panic, unless the remote files end at 1 |
| `AnalyticsGaps.GaplessIffNeverReturns` | crates/sui-storage/src/object_store/util.rs:53-66 | every run leaves a listing without holes exactly when no checkpoint with rows follows one without |
| `AnalyticsGaps.ResumeAtOnePanics` | crates/sui-analytics-indexer/src/lib.rs:254-256 | with rows in checkpoint 0, a run that uploads it alone, crashes, restarts and panics |
| `AnalyticsGaps.ResumesAtOneIff` | crates/sui-analytics-indexer/src/lib.rs:254-256 | some run stands before that restart exactly when checkpoint 0 has rows |
| `MallocSize.ConstantSizeIsExact` | crates/mysten-util-mem/src/malloc_size.rs:226-295 | a declared constant size is what every value of the type owns |
| `MallocSize.SizeOfIsOwned` | crates/mysten-util-mem/src/malloc_size.rs:226-364 | `size_of` with its product shortcuts equals the plain sum over everything owned, for every type and value |
| `MallocSize.ConstantElements` | crates/mysten-util-mem/src/malloc_size.rs:312-364 | length times constant equals the fold over elements |
| `MallocSize.ConstantEntries` | crates/mysten-util-mem/src/malloc_size.rs:428-475 | length times both constants equals the fold over entries |
| `MallocSize.WithoutConstantVaries` | crates/mysten-util-mem/src/malloc_size.rs:243-280 | tuples, options and results without a constant size really have values of different sizes |
| `LoadSearch.BenchmarkParametersGenerator.constructor` | crates/sui-aws-orchestrator/src/benchmark.rs:155-181 | the first load of the list, or the starting load |
| `LoadSearch.BenchmarkParametersGenerator.RegisterResult` | crates/sui-aws-orchestrator/src/benchmark.rs:218-268 | computes the specified next load and bounds, and panics only in the incoherent state |
| `LoadSearch.SearchIssues` | crates/sui-aws-orchestrator/src/benchmark.rs:218-268 | the panic is unreachable and exactly max_iterations + 1 loads are issued |
| `LoadSearch.BracketsIffStartedBelow` | crates/sui-aws-orchestrator/src/benchmark.rs:232-265 | once both bounds exist, lower < breaking point <= upper exactly when the search started below it |
| `LoadSearch.BisectionHalves` | crates/sui-aws-orchestrator/src/benchmark.rs:255-262 | a bisection leaves at most half the width, rounded up |
| `LoadSearch.BoundsCanMiss` | crates/sui-aws-orchestrator/src/benchmark.rs:232-265 | for every positive start, a testbed where the search finds both bounds and they miss the breaking point |
| `LoadSearch.SearchConverges` | crates/sui-aws-orchestrator/src/benchmark.rs:218-268 | how many results it takes: two, the doublings that stay below the breaking point, and the halvings of the last interval |
| `LoadSearch.SearchPins` | crates/sui-aws-orchestrator/src/benchmark.rs:218-268 | from every start above 0 and below the breaking point some number of results pins it exactly |
| `LoadSearch.PinsIff` | crates/sui-aws-orchestrator/src/benchmark.rs:218-268 | and from no other start |
| `LoadSearch.ZeroStays` | crates/sui-aws-orchestrator/src/benchmark.rs:237-252 | a search from 0 never gets an upper bound |
| `LoadSearch.OutOfCapacityIff` | crates/sui-aws-orchestrator/src/benchmark.rs:201-216 | out of capacity without divisions: over five times the latency, or at least a transaction short of two thirds of the load |
| `LoadSearch.SaturatingBreaksAt` | crates/sui-aws-orchestrator/src/benchmark.rs:201-216 | a testbed of steady latency that serves up to a cap breaks at the first load of which that is less than two thirds |
| `LoadSearch.SlowingBreaksAt` | crates/sui-aws-orchestrator/src/benchmark.rs:201-216 | a testbed that breaks by latency at any given load |
| `LoadSearch.FixedIssuesInOrder` | crates/sui-aws-orchestrator/src/benchmark.rs:221-230 | a fixed list is issued in order, each load once |
| `PackageGraph.NormalOfHolds` | sui-execution/src/tests.rs:122-135 | exactly the normal, target-free dependencies become edges |
| `PackageGraph.Graph` | sui-execution/src/tests.rs:104-117 | terminates on every relation, cyclic ones included; its nodes are what the root reaches, none if the root has no dependency; each edge is a dependency, each node is walked to from the root and entered once |
| `PackageGraph.WalksAreReal` | sui-execution/src/tests.rs:104-117 | every walk in the graph is a path of real dependencies |
| `PackageGraph.CompleteIffOneDependant` | sui-execution/src/tests.rs:104-117 | the graph holds every dependency of its nodes exactly when no package the root reaches has a second dependant |
| `PackageGraph.DiamondIsIncomplete` | sui-execution/src/tests.rs:104-117 | the graph of two packages that share a dependency misses one of the two ways to it |
| `PackageGraph.CompleteHoldsPaths` | sui-execution/src/tests.rs:40-57 | then every dependency path is a walk in the graph |
| `Histogram.SortOk` | crates/mysten-metrics/src/histogram.rs:270-270 | a sorted permutation, with the same sum |
| `Histogram.IndexInBoundsIff` | crates/mysten-metrics/src/histogram.rs:304-307 | the percentile index is in bounds exactly for percentiles below 1000 |
| `Histogram.PointAtIsPercentile` | crates/mysten-metrics/src/histogram.rs:271-278 | the reported point is a point of the window, and len * pct / 1000 lies between the points below it and the points up to it |
| `Histogram.PercentileIsUnique` | crates/mysten-metrics/src/histogram.rs:304-307 | no other value is |
| `Histogram.HistogramReporter.Report` | crates/mysten-metrics/src/histogram.rs:263-297 | gauges, counters and known labels after a window, whatever the order of the labels |
| `Histogram.CountersAreTotals` | crates/mysten-metrics/src/histogram.rs:279-286 | after any reports the counters are the totals of all points per label |
| `Histogram.GaugesFollowTheWindow` | crates/mysten-metrics/src/histogram.rs:263-297 | after any reports a gauge is that percentile of the latest window, 0 if its label had no points there, unset before its label appears |

## Left out

- File system, compression, object store retries, tokio scheduling, Prometheus registration, signature checks and the Move executor are abstracted as maps, sequences, steps and parameters.
- `ArchiveProtocol.Step`: a start with remote files but no MANIFEST panics in the source and is not a step here; safety is claimed, not that such a start succeeds.
- `read_summaries` without verification inserts out of order on purpose and is not modelled; nor are `pick_one_random` and the manifest refresh task.
- `verify_file_consistency`: downloads every file and compares checksums; it changes no state, and that the digests match is `ArchiveProtocol.ManifestFilesExist`.
- SyncStore: the store is the in-memory one of `SharedInMemoryStore`; the RocksDB store is not part of this model.
- ManifestCodec: SHA3 is an arbitrary 32-byte function and the compression of checkpoint files is not modelled.
- Wrapped objects, events and transaction signatures inside contents digests are not modelled in the simulated chain; deletions are what the effects list.
- `SimulacrumInvariant.RunKeeps`: totals, gas and epochs are unbounded numbers, where the source has u64; what happens past the last sequence number is `SimulacrumInvariant.EverySealIsStoredIff`.
- MeteredChannel: operations in flight are a multiset of phases, so their identities are not modelled; the gauge after the receiver is dropped with values queued, and callers that change it directly, are left out.
- Analytics: rows are opaque and a file is its rows, as in the headerless CSV the writer produces; a manual start override is left out. A crash stops the processor and the uploader together. Copying a file and removing it locally is one step; a restart finds arbitrary local files, so a stop between the two is covered.
- MallocSize: base types are honest about their constants; `IndexMap`, `SmallVec`, `Arc` with its seen-pointer set and usize overflow are left out.
- LoadSearch: loads are unbounded numbers; benchmark faults, durations and display are left out.
- `Histogram.HistogramReporter.Report`: requires non-empty windows, which the source asserts, and percentiles below 1000, beyond which the source panics partway; points and sums are unbounded.
- PackageGraph: parsing of cargo metadata, and the names the encapsulation test exempts.
- Version dispatch, gRPC, configuration, UI and command-line code forward calls and keep no state to state properties about.
