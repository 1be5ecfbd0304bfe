# Verification of the expert-pack compiler and server

This project models the core algorithms of the repository in Dafny and proves what they promise. One module
follows one component:

* **Compilation** (`CompilePlan`, `CompileDisk`, `CompileResume`, `CompileSteps`, `Compile`, `Calibration`): a file system
  in which a crash may come before any operation, the resumable compilation over it, and the refinement of one
  uninterrupted run.
* **Retained sessions** (`PageClaims`, `SessionWorker`, `Sessions`, `SessionCache`, `SessionRequests`, `SessionRuns`): the prefix
  cache, its disk tier and its page credits. Ghost claims say who owns each credit and each session key; ghost taints say
  under which keys something else than a session's tokens was loaded, and which snapshots were overwritten. Every step the
  source takes under one lock is a method of its own that spares the claims of others, so the invariants hold for all
  interleavings. `SessionRuns` is about runs of any number of requests, and exhibits
  those in which a promise fails.
* **Snapshots** (`Snapshots`) and **decode batching** (`DecodeBatcher`).
* **Streaming text** (`TextSearch`, `StopFiltering`, `TextFields`, `CodecStreams`): chunked processing equals one pass over the text.
* **JSON** (`JsonValues`, `JsonParsing`, `JsonRoundTrip`, `JsonSpelling`, `JsonCanonical`, `JsonShortest`): the parser and the canonical
  printer, and the spellings of a value in the grammar of RFC 8259, which are defined without either.
* **Block quantization** (`PowersOfTwo`, `BlockFormats`, `BlockMeaning`, `BlockProjection`, `BlockOracle`, `BlockWriter`, `Mxfp6Writer`, `LinearRows`,
  `Ranking`, `ActivationSelection`, `CalibratedRows`): FP4 and MXFP6 blocks over exact reals (sections 5.3, 5.4 and 6.3 of the OCP Microscaling Formats
  (MX) Specification v1.0; the FP4 scale uses its own ceiling rule), the separately written oracle, and calibrated selection.
* **Planning** (`PlannerArithmetic`, `Feasibility`): saturating 64-bit arithmetic and the exact threshold of the planner.
* **Programs** (`ProgramCheck`, `ProgramNames`, `ProgramFlow`, `ProgramGenerators`, `HybridGenerator`, `HyperGenerator`, `ProgramWiring`):
  the data-flow check of the runtime descriptor, three families of generators that satisfy it, and how their operations are wired.
* **Records and regions** (`RecordLayout`, `RecordFiles`, `EncodedRecords`, `Tiling`, `Primes`): what the writer appends the
  validator accepts, from the block encoders on; fused tensors are tiled exactly; the prime table.

`dafny verify dfyconfig.toml` checks the whole project.

## What turned out not to hold

* A crash between creating the partial directory and renaming its first state into place leaves a directory that can neither be
  resumed nor replaced. `Compile.RefinesUninterrupted` states that this is so if and only if the first attempt that reaches the
  disk at all crashes within its first three operations.
* When saving a retained session fails, the stored session keeps the older snapshot of the session it continued. If the next request
  checks it out and does not retain, it returns to the disk tier with more tokens than its snapshot was saved at, and resuming it
  skips tokens. From a clean state, in which nothing wrong was loaded or saved yet, this is the only way: a request that resumes an
  entry gets its prompt if and only if the entry was saved at its length, and with a clock ahead of all generations the state stays
  clean if and only if no entry saved at another length is loaded (`SessionRequests.Serve`). No session is listed at another length than its snapshot's until a turn is stored whose save
  failed, so up to then every context in a run is the prompt (`SessionRuns.ServeAll`). The worker itself
  refuses such an entry when the checkpoint lies within the last tokens of the prompt, as many as the snapshot lacks.
  `SessionRuns.StaleRun` is a run in which the prompt 1, 2, 3, 4 is answered as if it were 1, 2, 4.
* Once that has happened the length says nothing any more: if the same turn is retained and saved, its entry has as many tokens as its
  snapshot, and not the same ones. `SessionRuns.SpoiledRun` continues the run to such an entry and to a request that resumes it. The
  ghost sets of tainted keys and spoiled snapshots say which keys and snapshots this concerns; a caller cannot read them.
* A decode step that holds its slot makes the client forget the request although the worker keeps it. `SessionRequests.Serve` says when
  its slot stays behind. Not to be retained, a turn without speculation loses it if and only if it generated some tokens but fewer
  than its maximum: every answer that ends early does. To be retained, it loses it if and only if it held and was not parked; on a
  worker that does what it can, and with no other request, that is if the turn did not finish or its checkpoint does not fit.
  `SessionRuns.LoseSlots` fills a worker in this way, and `SessionRuns.WorkerFillsUp` is an instance after which no request ever
  starts again.
* A checked-out session is not live for the disk cleanup. `SessionCache.Application.CheckedOutIsNotLive` states when its snapshot is
  removed under it: exactly when the entry is expired, or still in the way after all older dead entries are gone.
  `SessionRuns.CheckedOutRun` is an instance.
* Removing a snapshot directory takes its files in the order in which they are listed. Interrupted, it leaves metadata without its blobs
  unless the metadata comes before every blob that it needs: `Snapshots.SafeOrder`.
* The stop filter depends on the chunking when a proper prefix of one stop string contains another one after its start:
  `StopFiltering.ChunkIndependentIff`, and for the codec's content markers `CodecStreams.CodecIndependentIff`.
* Saturation in the planner: a rounded-up product is exact if and only if the product of the remainder stays in range
  (`PlannerArithmetic.MultiplyDivideCeilExact`), the reported hits are the threshold if and only if they are those of the passing
  budget (`Feasibility.ThresholdExact`), and wide headroom is taken for a low margin if and only if its product overflows while
  enough is available (`Feasibility.LowMarginExact`, with the instance `Feasibility.WideMarginTakenForLow`).
  `Feasibility.ThresholdOverflows` and `Feasibility.ThresholdRateOverflows` are instances of reporting too few and too many hits.
* A snapshot of calibration counters that is refused for its payload targets has already replaced the counters:
  `Calibration.CalibrationSet.Restore`.

## Model

| member | source | states |
|---|---|---|
| `CompileDisk.Disk.Replace` | compiler/expert_pack/util.py:63-71 | A file is replaced through its temporary name: after success it holds the new content, and a crash at any operation leaves every committed file of the run as it was. |
| `CompileDisk.WriteKeepsRunning` | compiler/expert_pack/compile.py:1288-1376 | Writing any file that no committed state speaks of keeps the partial directory resumable from that state. |
| `CompileDisk.UnlinkKeepsRunning` | compiler/expert_pack/compile.py:765-775 | Removing any file that no committed state speaks of keeps the partial directory resumable from that state. |
| `CompilePlan.PackCountUnique` | compiler/expert_pack/compile.py:1339-1376 | Greedy filling ends with one number of packs: two counts whose packs hold all experts are equal. |
| `CompilePlan.StartsAscend` | compiler/expert_pack/compile.py:1339-1376 | Packs take consecutive ranges of experts in order, and while experts remain each pack starts later than the one before. |
| `CompilePlan.PackWithinLimit` | compiler/expert_pack/compile.py:1339-1366 | With records of the predicted size a pack is within the limit unless it holds one record, and no further record would have fitted it. |
| `CompilePlan.PackStops` | compiler/expert_pack/compile.py:1339-1366 | Whatever the sizes of the records: a pack goes on exactly as long as it is empty or a predicted record fits behind it. |
| `CompilePlan.FitsExactly` | compiler/expert_pack/activation_calibration.py:269-374 | A compilation under calibration can be finished if and only if each FP4 matrix has acceptable counts, each capture that is not excluded and each payload target belongs to such a matrix, and there is one. |
| `CompileResume.ValidateResumePrefix` | compiler/expert_pack/compile.py:778-824 | Accepts exactly the states whose dense index is complete, whose expert index is a prefix, and whose pack files hold at every indexed offset the indexed record and nothing else. |
| `CompileResume.RunningResumes` | compiler/expert_pack/compile.py:778-824 | No crash leaves a state that the resume check refuses, and the number of distinct packs in it is the index of the next pack. |
| `CompileResume.CommittedGroups` | compiler/expert_pack/compile.py:804-824 | Grouping the committed index by pack gives back the entries of each pack in order. |
| `CompileResume.ExpertRecordAt` | compiler/expert_pack/compile.py:810-824 | The running byte offset of an expert entry is where its own record starts in the pack file. |
| `CompileResume.CommittedPacks` | compiler/expert_pack/compile.py:1318-1318 | Counting the distinct pack names of the committed index gives the number of committed packs. |
| `CompileSteps.CommitState` | compiler/expert_pack/compile.py:1367-1369 | A commit puts the new state in force only by the rename; a crash before it leaves the old state in force and resumable. |
| `CompileSteps.DiscardUncommitted` | compiler/expert_pack/compile.py:765-775 | Removes exactly temporary files, packs outside the committed index and closing files, and keeps the state valid if it is interrupted. |
| `CompileSteps.WriteDensePack` | compiler/expert_pack/compile.py:827-877 | On success the dense pack holds every matrix in order, its index gives their offsets and the calibration counters are those of all matrices; it is refused only for a calibration that an uninterrupted run refuses. |
| `CompileSteps.DensePhase` | compiler/expert_pack/compile.py:1293-1310 | Fresh or resumed, dense index, snapshot and calibration counters afterwards are those of an uninterrupted run. |
| `CompileSteps.FillPack` | compiler/expert_pack/compile.py:1339-1366 | From any committed prefix the next pack gets the records that greedy filling from an empty file gives it. |
| `CompileSteps.ExpertPhase` | compiler/expert_pack/compile.py:1312-1376 | Whatever was committed before, the packs and the expert index at the end are those of an uninterrupted run. |
| `CompileSteps.CopyMetadata` | compiler/expert_pack/compile.py:880-913 | Leaves a copy of each metadata file and no temporary file, whatever an earlier run left. |
| `Compile.ManifestIsFinal` | compiler/expert_pack/compile.py:927-957 | The manifest read off the directory and the state is the manifest of an uninterrupted run. |
| `Compile.MarkerCompletes` | compiler/expert_pack/compile.py:1399-1434 | Once the marker follows manifest and report the directory is exactly the published one, apart from the state file. |
| `Compile.CompleteIsValid` | compiler/expert_pack/compile.py:1433-1439 | A complete directory passes its own validation, so publishing is never refused. |
| `Compile.WriteClosing` | compiler/expert_pack/compile.py:1378-1434 | The marker is last: an interruption leaves either a resumable or a complete directory. |
| `Compile.Run` | compiler/expert_pack/compile.py:1259-1445 | One run: it publishes only the complete directory; otherwise the output is untouched. It is refused exactly when the output exists, when a partial directory exists and resuming was not asked for, when no state was ever written, or for a calibration that does not fit. |
| `Compile.RunMany` | compiler/expert_pack/compile.py:1259-1445 | After any sequence of crashed runs what exists is resumable, complete or published whole. |
| `Compile.RefinesUninterrupted` | compiler/expert_pack/compile.py:1259-1445 | Crash refinement: after any crashes a last undisturbed run leaves the directory of one uninterrupted run, the timing report aside; it leaves none exactly when that run is refused or the first attempt with any operation has at most three. |
| `Calibration.RestoreInvertsSnapshot` | compiler/expert_pack/activation_calibration.py:294-374 | Restoring a snapshot into a fresh set gives its counters back; it is refused exactly when a capture was not applied, and then finalizing would be refused. |
| `Calibration.CalibrationSet.RecordSelection` | compiler/expert_pack/activation_calibration.py:269-292 | Succeeds exactly for valid counts of a capture that is not excluded, and adds them to the counters. |
| `Calibration.CountersAddUp` | compiler/expert_pack/activation_calibration.py:269-292 | Over any sequence of selections: recording succeeds exactly when each is acceptable by itself, and then the counters are the sums over the captured matrices, with no more reselections than blocks and no more changed codes than values. |
| `Calibration.CalibrationSet.Restore` | compiler/expert_pack/activation_calibration.py:313-358 | Accepts exactly the snapshots that match captures, exclusions and payload targets; the counters are replaced exactly when captures and exclusions match, so also when the payload targets are then refused. |
| `Calibration.CalibrationSet.Finalize` | compiler/expert_pack/activation_calibration.py:360-374 | Reports the counters exactly when every capture and payload target was used. |
| `PageClaims.TotalWithout` | ops/python/expert_server.py:1486-1490 | A claim's pages are part of the total, so they may always be released. |
| `Sessions.ResumedContext` | ops/python/expert_server.py:3541-3557 | What is parked, continued with the rest of the prompt, is the prompt exactly when it is the tokens of the session. |
| `Sessions.PagesAreEnough` | ops/python/expert_server.py:1739-1741 | The page count covers the tokens, and one page fewer does not. |
| `Sessions.MatchIsPrefix` | ops/python/expert_server.py:1795-1812 | A session matches exactly if its tokens are a prefix of the prompt and its media are the same. |
| `Sessions.LongestMatch` | ops/python/expert_server.py:1795-1812 | The longest matching prefix above a given length, the first of its length. |
| `SessionCache.Application.AcquirePages` | ops/python/expert_server.py:1748-1753 | Pages go to the caller's claim exactly when the total stays within capacity. |
| `SessionCache.Application.ReleaseCredits` | ops/python/expert_server.py:1486-1490 | For pages that a claim holds the guard against invalid releases never fires, and the total stays the sum of all claims and stored sessions. |
| `SessionCache.Application.RemoveSessions` | ops/python/expert_server.py:1769-1772 | Removed sessions become victims that still own their pages and their key; nothing else changes. |
| `SessionCache.Application.FinishVictim` | ops/python/expert_server.py:1773-1774 | Dropping a victim returns exactly its pages and forgets only its key. |
| `SessionCache.Application.EvictLruSession` | ops/python/expert_server.py:1777-1785 | Evicts the oldest stored session, if any, and leaves every claim with its pages and what the worker holds for it. |
| `SessionCache.Application.SweepIdleSessions` | ops/python/expert_server.py:1763-1775 | Keeps exactly the sessions used since the cutoff. |
| `SessionCache.Application.CheckoutSession` | ops/python/expert_server.py:1787-1817 | Takes a longest matching prefix of both tiers out of its tier, the resident one on a tie, with its pages and key; what is left in each tier is stated. Under an untainted key the worker holds exactly its tokens. |
| `SessionCache.Application.StoreSession` | ops/python/expert_server.py:1819-1851 | The pages and key of the claim pass to the stored session; stored duplicates of its tokens go, all other sessions stay. |
| `SessionCache.Application.ReturnDiskSession` | ops/python/expert_server.py:1853-1862 | The session is listed on disk again, in place of any entry with its snapshot and with the snapshot that it came from. |
| `SessionCache.Application.DiskAgrees` | ops/python/expert_server.py:1853-1862 | For every disk entry whose snapshot is there and was neither overwritten nor saved from a tainted key: the snapshot holds the tokens of the entry if and only if it was saved at their length. |
| `SessionCache.Application.PersistSession` | ops/python/expert_server.py:1663-1737 | Saves under a later generation and lists what the worker holds, then cleans up, with every expired snapshot that no stored session has; with a clock ahead of all generations and an untainted key no snapshot is spoiled, and existing ones stay as they are or go. A failed save changes neither tier. |
| `SessionCache.Application.CleanupPersistentSessions` | ops/python/expert_server.py:1628-1661 | Removes from the disk tier and from the disk exactly the entries that are expired or do not fit, none of them of a stored session. |
| `SessionCache.Application.CheckedOutIsNotLive` | ops/python/expert_server.py:1634-1655 | The snapshot of a checked-out session, unless a stored session shares it, is removed if and only if its entry is expired or the total without all older dead entries is still over the limit. |
| `SessionRequests.OthersKeepContext` | ops/python/expert_server.py:1877-1943 | Whatever steps other requests take in between, a context keeps its pages, its key and what the worker holds under it, and its session and snapshot stay as good as they were. |
| `SessionRequests.RestoreFromDisk` | ops/python/expert_server.py:1881-1914 | Evicts until the pages fit, then loads what the snapshot holds; its key is tainted if and only if that is not the tokens of the session, which for a snapshot neither overwritten nor saved from a tainted key is so if and only if it was saved at another length. On failure the pages are given back and the entry returns to disk. |
| `SessionRequests.AcquireRequestContext` | ops/python/expert_server.py:1877-1918 | A new context holds the pages of a longest matching prefix of both tiers, or none; a resident one is as untainted as before, and one from disk is untainted exactly if its snapshot holds its tokens. |
| `SessionRequests.ResizeRequestContext` | ops/python/expert_server.py:1920-1933 | Fails only when every stored session has been evicted and the pages still do not fit; the context then holds what it held. |
| `SessionRequests.PrefillRequest` | ops/python/expert_server.py:3534-3601 | Resumed, retried after evictions or fallen back, the context of the worker is that of a full prefill if and only if what was parked was the tokens of the session, as it is for every untainted key; a preserved session is stored again. |
| `SessionRequests.AttemptPrefill` | ops/python/expert_server.py:3534-3575 | One attempt: what is parked followed by the rest of the prompt, which is the prompt exactly when the parked tokens are those of the session; with a free slot it fails only where the prefix is gone or the checkpoint is not in the rest of the prompt; a failed attempt activates nothing. |
| `SessionRequests.EndRetainWithEviction` | ops/python/expert_server.py:3406-3423 | Ends with the prefix parked or with an error; retries only while a session can be evicted, and a willing worker parks exactly the checkpoint. |
| `SessionRequests.EndRetainChecked` | ops/python/expert_server.py:3437-3462 | What the worker reports as parked is accepted exactly if it is the checkpoint, where that is asked for, or lies within the visible tokens, and its pages are none or just as many as hold it; otherwise the prefix is dropped. |
| `SessionRequests.ParkActiveRequest` | ops/python/expert_server.py:3425-3470 | The context ends up with the pages that just hold what was parked; on a willing worker without other requests the checkpoint is parked whenever its pages fit. |
| `SessionRequests.RetainActiveRequest` | ops/python/expert_server.py:3425-3486 | A retained turn becomes a stored session of a prefix of the visible tokens, on pages that hold it while one page fewer would not; otherwise the context keeps its credits. It ends the request only if the checkpoint fits the capacity, and on a willing worker without other requests exactly then, with the checkpoint retained; snapshots stay as long as their sessions unless its save fails. |
| `SessionRequests.RetainTurn` | ops/python/expert_server.py:3649-3686 | A finished turn is retained only with nothing buffered; a cancelled one only if the client still lists it, and as exactly its checkpoint; neither with a checkpoint that does not fit. |
| `SessionRequests.ReleaseRequestContext` | ops/python/expert_server.py:1935-1943 | Gives back the pages of an unretained context once, drops its session from the worker and returns it to disk. |
| `SessionRequests.Decode` | ops/python/expert_server.py:3605-3648 | Tokens delivered, tokens still buffered and the context of the worker stay together; which steps were taken follows from the turn and from how many tokens it delivered, and decides whether the slot is given up and whether the client still lists the request. |
| `SessionRequests.FinishTurn` | ops/python/expert_server.py:3605-3691 | After decoding, retaining and the guarded cancel the slot stays if and only if some step was a hold, none was final and the turn was not parked; a held turn is parked only if it finished and fits. |
| `SessionRequests.SlotOf` | ops/python/expert_server.py:3605-3691 | Whether the slot stays, read off the turn and what it generated: not retained, if it does not speculate and ended early; retained, if it held and was not parked, which a willing worker without other requests does exactly for a finished turn that fits. |
| `SessionRequests.Serve` | ops/python/expert_server.py:3488-3694 | From admission to release a request leaves no claim behind and spares those of others. Whether it stays active in the worker is decided by the turn, what it generated and whether it was parked. From a clean state its context is the prompt unless it resumed an inexact entry, and the state stays clean if and only if it loaded none. Sessions keep the length of their snapshots unless it stores one whose save failed. It never starts on a full worker. |
| `SessionRuns.ServeAll` | ops/python/expert_server.py:3488-3694 | For every sequence of requests from a sound state: until one leaves a session whose save failed, every request that starts has its prompt for its context, and the state stays sound. |
| `SessionRuns.LosesItsSlot` | ops/python/expert_server.py:1086-1088 | A turn that holds and is then left by its client, or cannot be parked because its checkpoint does not fit, is sure to keep its slot. |
| `SessionRuns.LoseSlots` | ops/python/expert_server.py:1086-1088 | From any state of a willing worker, as many such requests as there are free slots all stay active, and the client lists none of them. |
| `SessionRuns.RefuseAll` | runtime/tools/moe_vm_runner.cpp:1051-1054 | On a full worker no request of any sequence starts, and those that fill it stay. |
| `SessionRuns.WorkerFillsUp` | ops/python/expert_server.py:3652-3688 | For every number of slots: a server with pages for one token is filled by retained turns of two tokens, or by turns whose clients leave, and then starts no request. |
| `SessionRuns.StaleRun` | ops/python/expert_server.py:1853-1862 | A run of four requests with one failed save, after which a resumed context is not the prompt. |
| `SessionRuns.SpoiledRun` | ops/python/expert_server.py:1680-1685 | The run continued: the turn is saved as an entry as long as its snapshot with other tokens, and another request resumes it. |
| `SessionRuns.CheckedOutRun` | ops/python/expert_server.py:1634-1658 | While one request has a session checked out, another one saves, and the expired snapshot of the first is removed. |
| `Snapshots.Directory.SaveBlobs` | ops/python/expert_server.py:1675-1679 | Interrupted anywhere, saving never removes a blob the metadata names. |
| `Snapshots.Directory.ReplaceMetadata` | ops/python/expert_server.py:1515-1529 | The metadata is the old or the new one, never a torn one. |
| `Snapshots.Directory.Prune` | ops/python/expert_server.py:1703-1710 | Interrupted anywhere, pruning keeps all blobs of the committed generation; completed, it keeps only those. |
| `Snapshots.Directory.RemoveTree` | ops/python/expert_server.py:1656-1658 | Interrupted anywhere, the metadata is gone or has all its blobs if and only if no blob that it needs went before it. |
| `Snapshots.SafeOrder` | ops/python/expert_server.py:1656-1658 | A removal is safe at every interruption if and only if its order takes the metadata before every blob that it needs. |
| `Snapshots.Directory.Persist` | ops/python/expert_server.py:1663-1737 | After a crash at any step the metadata names a generation whose blobs are all present, and a commit has the next generation. |
| `Snapshots.PersistMany` | ops/python/expert_server.py:1663-1737 | Over any sequence of crashed and completed saves, with any clocks, the committed generations strictly increase. |
| `Snapshots.FittedIsEnough` | ops/python/expert_server.py:1643-1655 | Cleanup ends within the limit or with live sessions only, never loses a live one and does nothing when within the limit. |
| `Snapshots.FittedIsOnePass` | ops/python/expert_server.py:1645-1655 | Removing the first dead entry again and again is one pass over the listing. |
| `Snapshots.SurvivesIff` | ops/python/expert_server.py:1645-1655 | An entry survives that pass if and only if it is live or the dead entries before it make up for the excess. |
| `Snapshots.DroppedFirst` | ops/python/expert_server.py:1645-1655 | Every entry removed for want of room precedes every dead one that is kept, and without the removal the total would exceed the limit. |
| `Snapshots.CleanupExactly` | ops/python/expert_server.py:1628-1655 | For every listing: an entry stays if and only if it is live, or not expired and within the limit once all older dead entries are gone. |
| `Snapshots.Index.Cleanup` | ops/python/expert_server.py:1628-1661 | The loops remove exactly the entries that do not stay, no live one among them. |
| `DecodeBatcher.ContinuousDecodeBatcher.Submit` | ops/python/expert_server.py:1150-1168 | A step gets the next buffered token of its request, or a place in the queue; a final one gives up the rest of its buffer and its slot; tokens are delivered in the order of emission. |
| `DecodeBatcher.ContinuousDecodeBatcher.Gather` | ops/python/expert_server.py:1170-1194 | Batches keep the order of the queue and are no larger than the worker's capacity. |
| `DecodeBatcher.ContinuousDecodeBatcher.Dispatch` | ops/python/expert_server.py:1196-1217 | Every waiter of a batch is answered once: with the next token of its own request, or all with an error and nothing else changed; of what was emitted only final steps give anything up, all else is delivered or stays buffered. |
| `DecodeBatcher.ContinuousDecodeBatcher.TakeBuffered` | ops/python/expert_server.py:1227-1229 | What is taken completes what was delivered to all that the worker emitted. |
| `DecodeBatcher.CudaWorker.Step` | ops/python/expert_server.py:1065-1089 | A batch adds exactly its held requests to the slots that the client has forgotten, and only final steps take any away. |
| `DecodeBatcher.CudaWorker.Cancel` | ops/python/expert_server.py:1091-1097 | Cancelling frees only what the client lists, so forgotten slots stay. |
| `DecodeBatcher.LostAfterBatch` | ops/python/expert_server.py:1080-1089 | What one batch of distinct requests does to the slots kept by the worker and forgotten by the client. |
| `DecodeBatcher.ServeConserves` | ops/python/expert_server.py:1203-1209 | Answering with the first token and buffering the rest keeps delivered, buffered and owed tokens equal to the emissions. |
| `StopFiltering.FilterInvariant` | ops/python/expert_server.py:298-336 | For every chunking and any stop strings: emitted and pending text are what was taken; no stop occurrence starts inside emitted text, whatever follows; when stopped, the output is the taken text up to the earliest occurrence. |
| `StopFiltering.AnyChunkingTruncates` | ops/python/expert_server.py:298-336 | For prefix-safe stop strings, every chunking gives the whole text cut before its leftmost stop occurrence, or all of it if there is none. |
| `StopFiltering.ChunkIndependentIff` | ops/python/expert_server.py:298-336 | The output is the same for all chunkings exactly when no proper prefix of a stop string contains another one except at its start. |
| `StopFiltering.NoFactorIsPrefixSafe` | ops/python/expert_server.py:298-336 | The condition holds when no stop string is a factor of another. |
| `StopFiltering.SplitInTwo` | ops/python/expert_server.py:306-325 | Where the condition fails, a stop string sent whole gives no output and the same string sent in two pieces does. |
| `StopFiltering.StopFilter.Feed` | ops/python/expert_server.py:306-330 | One chunk moves the filter to the state that the trace of all chunks gives, and returns what the trace lets through. |
| `StopFiltering.StopFilter.Finish` | ops/python/expert_server.py:332-336 | Releases the pending text unless a stop string was found. |
| `TextFields.StreamingTextField.Feed` | ops/python/expert_server.py:239-264 | The deltas so far always concatenate to the stripped text so far; a chunk is refused exactly when leading or trailing whitespace leaves the bound. |
| `TextFields.FeedFacts` | ops/python/expert_server.py:239-264 | How stripped text, held whitespace and discarded whitespace of a text follow from those of the text before the last chunk. |
| `TextFields.TrailingExtends` | ops/python/expert_server.py:253-262 | After text that ends in a non-space, the trailing whitespace is that of what follows. |
| `CodecStreams.ArtifactCodecStreamParser.Feed` | ops/python/artifact_chat_codec.py:58-100 | One chunk moves the regions as the function of all chunks does; the events add to reasoning and content what the two region filters let through, for every chunking. |
| `CodecStreams.ArtifactCodecStreamParser.Finalize` | ops/python/artifact_chat_codec.py:102-108 | Reasoning and content are those that the chunks give; with prefix-safe content markers, reasoning is the text before the first thinking-end marker and content the rest up to the first tool or end marker, for every chunking. |
| `CodecStreams.MarkerArrives` | ops/python/artifact_chat_codec.py:66-88 | The chunk in which the marker completes is split where the whole text is split. |
| `CodecStreams.RegionsSplit` | ops/python/artifact_chat_codec.py:58-100 | For every chunking the regions are fed the text split at the first thinking-end marker. |
| `CodecStreams.CodecIndependentIff` | ops/python/artifact_chat_codec.py:58-108 | Reasoning and content are the same for all chunkings of a text if and only if the content markers are prefix-safe. |
| `CodecStreams.ContentSplitsInTwo` | ops/python/artifact_chat_codec.py:79-100 | Where they are not, two chunkings of one text give different content. |
| `JsonParsing.Parser.ParseDocument` | core/src/json.cpp:17-31 | The loops compute the grammar function on the whole text; `JsonSpelling.DocumentIff` says what it accepts. |
| `JsonSpelling.DocumentIff` | core/src/json.cpp:17-257 | Parsing accepts exactly the texts that spell a value, with blanks between any two tokens and any escapes in strings, and returns that value; spellings are defined without the parser. |
| `JsonSpelling.ValueReads` | core/src/json.cpp:58-76 | Every legal spelling of a value reads back as the value it stands for, behind any text and before any legal continuation. |
| `JsonSpelling.ValueSpelled` | core/src/json.cpp:58-76 | Whatever is read is a legal spelling of the value returned. |
| `JsonParsing.Parser.ParseString` | core/src/json.cpp:112-158 | Reads a string with escapes and surrogate pairs as the grammar function does. |
| `JsonParsing.Parser.ParseNumber` | core/src/json.cpp:196-257 | Reads the number token and its kind as the grammar function does. |
| `JsonParsing.Parser.ParseObject` | core/src/json.cpp:174-194 | Reads members into an object ordered by key and refuses duplicates, as the grammar function does. |
| `JsonValues.Printer.AppendCanonical` | core/src/json.cpp:288-319 | Appends the canonical text of a value. |
| `JsonValues.NormPrintsAlike` | core/src/json.cpp:288-297 | Values that differ only in the signed zero print alike. |
| `JsonRoundTrip.ValueRoundTrip` | core/src/json.cpp:58-76 | Under any legal continuation, parsing the canonical text of a value returns it and consumes exactly that text. |
| `JsonRoundTrip.StringRoundTrip` | core/src/json.cpp:263-286 | A quoted and escaped string reads back, for every text. |
| `JsonRoundTrip.NumberRoundTrip` | core/src/json.cpp:196-257 | A printed number reads back as the same kind and value. |
| `JsonRoundTrip.ItemsRoundTrip` | core/src/json.cpp:160-172 | The remaining items of an array read back. |
| `JsonRoundTrip.MembersRoundTrip` | core/src/json.cpp:174-194 | The remaining members of an object read back into the ordered map. |
| `JsonRoundTrip.InsertAscending` | core/src/json.cpp:174-194 | Inserting a new key keeps the members in ascending order of keys. |
| `JsonCanonical.ParsedIsWellFormed` | core/src/json.cpp:58-76 | Every parsed value is one that the printer and the round trip cover. |
| `JsonCanonical.CanonicalizeIdempotent` | core/src/json.cpp:356-364 | Canonicalizing a canonical text changes nothing. |
| `JsonCanonical.CanonicalizeDecidesEquality` | core/src/json.cpp:356-364 | Two texts canonicalize alike exactly when their values agree, a signed zero counting as zero. |
| `JsonCanonical.CanonicalizeText` | core/src/json.cpp:356-364 | Succeeds exactly for the spellings of values, and then gives the canonical text of the value spelled, whatever its blanks, escapes and order of members. |
| `JsonShortest.CanonicalIsShortest` | core/src/json.cpp:263-319 | No text that stands for a value is shorter than its canonical text: it has no blanks and no escape that could go. |
| `JsonValues.KeyOrder` | core/src/json.cpp:304-316 | Keys are in byte-wise lexicographic order: a proper prefix first, otherwise by the first byte that differs. |
| `JsonCanonical.SpellingReads` | core/src/json.cpp:132-152 | Every code point beyond the control range spelled as an escape, by a surrogate pair if need be, reads back as its encoding. |
| `JsonCanonical.Utf8Decodes` | core/src/json.cpp:78-94 | The bytes appended for a code point decode to it. |
| `BlockFormats.NearestIsNearest` | compiler/expert_pack/quant.py:208-223 | The index search returns a nearest level, the even index on a tie. |
| `BlockFormats.NearestUnique` | compiler/expert_pack/quant.py:208-223 | No other index is nearest in that sense. |
| `BlockFormats.NearestIndex` | compiler/expert_pack/quant.py:208-223 | The boundary-free loop finds the nearest level. |
| `BlockMeaning.CoveringCovers` | compiler/expert_pack/quant.py:170-176 | Six times the scale of the code covers the maximum of a block, and six times the scale below does not, up to the range of codes; a zero maximum has code 127. |
| `BlockMeaning.CoversOnce` | compiler/expert_pack/quant.py:170-176 | No other code does that. |
| `BlockMeaning.MinErrorIsLower` | compiler/expert_pack/quant.py:179-205 | The code is the covering one or the one below it, whichever leaves the smaller squared distance between the block and what is stored of it, and the covering one on a tie. |
| `BlockMeaning.ErrorIsDistance` | compiler/expert_pack/quant.py:193-202 | The error that the policy compares is the squared distance of the decoded block from the block. |
| `BlockMeaning.FloorLeads` | compiler/expert_pack/quant.py:665-671 | Sixteen times the scale of the MXFP6 code is at most the maximum, and twice that is more, up to the range of codes. |
| `BlockMeaning.EncodingRepresents` | compiler/expert_pack/quant.py:208-223 | Each value of a block gets its sign and the level that, scaled, comes nearest to it, the even index on a tie. |
| `BlockProjection.Fp4Projection` | compiler/expert_pack/quant.py:170-232 | For every block of reals, under either policy first and either policy second, encoding and decoding decoded values gives the same values. |
| `BlockProjection.Fp4FixedPoint` | compiler/expert_pack/quant.py:170-232 | Every stored block, whatever its codes, decodes to values that encoding preserves, also when another scale code is chosen or the code is clamped. |
| `BlockProjection.Mxfp6Projection` | compiler/expert_pack/quant.py:665-706 | The same for MXFP6. |
| `BlockProjection.CoveringCodeFits` | compiler/expert_pack/quant.py:170-176 | The code chosen for decoded values is never above their own, and the values stay within the largest level. |
| `BlockOracle.OracleFp4Index` | compiler/expert_pack/quality.py:216-222 | The midpoint table gives the index of the nearest-level search. |
| `BlockOracle.OracleMxfp6Index` | compiler/expert_pack/quality.py:397-410 | The argument of the least distance, then least code bit, is the index of the nearest-level search. |
| `BlockOracle.NearestByMidpoints` | compiler/expert_pack/quality.py:216-222 | Lying between the midpoints to its neighbours, with ties to even, makes a level the nearest one. |
| `BlockOracle.UnpackPack` | compiler/expert_pack/fp4_reference.py:71-78 | Packed nibbles unpack to the codes. |
| `BlockOracle.Word6IsSum` | compiler/expert_pack/quality.py:411-424 | Joining six-bit codes by bit-or and by sum gives the same word. |
| `BlockOracle.Word6Reads` | compiler/expert_pack/quant.py:692-706 | A word gives back its four six-bit codes. |
| `BlockWriter.WriteFp4Block` | compiler/expert_pack/quant.py:642-661 | The writer stores the packed encoding of the block: each value with its sign and nearest level, at the code that just covers the block or, under the other policy, at that or the code below with the lower error. |
| `BlockWriter.ExpectedFp4` | compiler/expert_pack/quality.py:236-261 | The gate's own encoding of a block has the writer's bytes and scale code. |
| `BlockWriter.OracleFp4Error` | compiler/expert_pack/quality.py:225-233 | The gate's error of a block at a code is the error the policy compares. |
| `BlockWriter.ValidAdjacentFp4Payload` | compiler/expert_pack/quality.py:289-316 | Accepts exactly the payloads whose nibbles are the nearest ones or, within the logical columns, their neighbours of the same sign. |
| `BlockWriter.QualifyFp4Block` | compiler/expert_pack/quality.py:366-394 | Flags a payload or a scale code exactly when it is not one of those the policies allow. |
| `BlockWriter.GateAcceptsWriter` | compiler/expert_pack/quality.py:366-394 | Every block the writer stores passes the gate. |
| `BlockWriter.CalibratedIsAccepted` | compiler/expert_pack/quality.py:289-316 | A payload that calibration moved by single levels, keeping signs and padding, is accepted. |
| `BlockWriter.DecodeFp4Block` | compiler/expert_pack/fp4_reference.py:53-108 | Unpacking and scaling stored bytes gives the decoded values of the block. |
| `Mxfp6Writer.WriteMxfp6Block` | compiler/expert_pack/quant.py:825-842 | The writer stores the packed MXFP6 encoding of the block: each value with its sign and nearest level, at the code of its leading power of two. |
| `Mxfp6Writer.DecodeMxfp6Block` | runtime/src/cuda/transformer_kernels.cu:847-866 | The runtime reads from the stored bytes of a block exactly its decoded values. |
| `Mxfp6Writer.RuntimeReads` | runtime/src/cuda/transformer_kernels.cu:823-832 | The code that the runtime cuts out of the packed bytes is the one that was packed. |
| `Mxfp6Writer.MagnitudeIsLevel` | runtime/src/cuda/transformer_kernels.cu:836-845 | The integer form of a code is sixteen times its level. |
| `Mxfp6Writer.OracleMxfp6Block` | compiler/expert_pack/quality.py:397-428 | The gate's oracle gives the writer's bytes and scale code, and decodes them to the stored values. |
| `Mxfp6Writer.FrexpIsLogarithm` | compiler/expert_pack/quant.py:471-476 | The exponent taken from mantissa and exponent is the rounded logarithm of both scale rules. |
| `Mxfp6Writer.VectorisedChoiceAgrees` | compiler/expert_pack/quant.py:486-511 | Comparing errors in units of the covering scale keeps exactly the blocks that the scalar rule keeps. |
| `LinearRows.ProductUpdate` | compiler/expert_pack/quant.py:320-322 | Changing one value of a row changes its calibration product by a multiple of one column. |
| `LinearRows.Norm2Step` | compiler/expert_pack/quant.py:279-288 | The squared length after adding a multiple of a column, as the gain formulas use it. |
| `ActivationSelection.SelectScales` | compiler/expert_pack/quant.py:520-589 | In the order of the isolated gains a block flips if and only if it may and that lowers the error left by the flips before it; the residual is the product of what is decoded minus the source, and the squared error falls with every flip. |
| `ActivationSelection.OneScaleSelection` | compiler/expert_pack/quant.py:520-589 | That determines the selected blocks. |
| `ActivationSelection.FlipMovesResidual` | compiler/expert_pack/quant.py:544-580 | Flipping one block moves the residual by the output delta of that block. |
| `ActivationSelection.ObjectiveIsErrorChange` | compiler/expert_pack/quant.py:268-296 | The isolated gain of a step is exactly the change of the squared error. |
| `ActivationSelection.PrefixErrors` | compiler/expert_pack/quant.py:316-324 | The running sums are the errors of all prefixes of the order. |
| `ActivationSelection.SelectPayloadCodes` | compiler/expert_pack/quant.py:235-342 | Of the prefixes of the 64 highest gains the shortest best one is applied if all of it is eligible and it lowers the error, and nothing otherwise; only eligible entries move, by at most one level. |
| `ActivationSelection.OnePayloadSelection` | compiler/expert_pack/quant.py:235-342 | That determines the level indices. |
| `CalibratedRows.CalibrateRow` | compiler/expert_pack/quant.py:467-615 | Both selections over one row, in full: the codes are the baseline's with the selected blocks back at the covering code, the levels the nearest ones or the outcome of the payload selection; so every block has a legal code and legal levels, and the output error is never above that of the lower-error baseline. |
| `CalibratedRows.OneCalibration` | compiler/expert_pack/quant.py:467-615 | A row has one calibrated form. |
| `CalibratedRows.GateAcceptsCalibrated` | compiler/expert_pack/quality.py:354-382 | Whatever the calibration, the gate flags no block of the packed row. |
| `CalibratedRows.MixedDecodes` | compiler/expert_pack/quant.py:582-589 | Taking decoded blocks from either scale choice is decoding the row with the chosen codes. |
| `CalibratedRows.EncodedBlock` | compiler/expert_pack/quality.py:264-276 | A block of the encoded row is the block encoded on its own at its scale code. |
| `CalibratedRows.BlockBytes` | compiler/expert_pack/quant.py:605-614 | The bytes of a block lie together in the bytes packed for its row. |
| `Ranking.SortedIsOrder` | compiler/expert_pack/quant.py:303-316 | The ranking is a permutation of the entries with gains descending, ineligible ones last and ties by index. |
| `Ranking.RankingUnique` | compiler/expert_pack/quant.py:303-316 | There is one such order. |
| `Ranking.EligibleFirst` | compiler/expert_pack/quant.py:297-333 | In such an order the eligible entries come first. |
| `PlannerArithmetic.CeilIsLeast` | core/src/feasibility.cpp:27-30 | Rounded-up division is the least quotient whose multiple reaches the numerator. |
| `PlannerArithmetic.MultiplyDivideCeilExact` | core/src/feasibility.cpp:32-39 | Never above the exact rounded-up product, and equal to it, up to saturation, if and only if the remainder product is in range or hidden by saturation. |
| `PlannerArithmetic.MultiplyDivideCeilMeans` | core/src/feasibility.cpp:32-39 | The computed value in exact products, for all inputs. |
| `PlannerArithmetic.BoundedExactly` | core/src/feasibility.cpp:32-39 | For a bound whose own multiple is below the largest number: the rounded-up quotient is within the bound if and only if the exact product is within that multiple. |
| `PlannerArithmetic.MultiplyDivideCeilBelow` | core/src/feasibility.cpp:32-39 | A concrete input where the remainder product overflows and the result is too small. |
| `PlannerArithmetic.MonotoneInValue` | core/src/feasibility.cpp:32-39 | Monotone in the value, saturating or not. |
| `PlannerArithmetic.MonotoneInMultiplier` | core/src/feasibility.cpp:32-39 | Monotone in the multiplier, saturating or not. |
| `Feasibility.AvoidanceIsLeast` | core/src/feasibility.cpp:41-46 | The reported hits are never more than are needed to stay within the budget, and exactly those if and only if the product of the missing bytes with a million is in range. |
| `Feasibility.ThresholdExact` | core/src/feasibility.cpp:94-171 | For all hits a bandwidth constraint passes if and only if they reach the reported ones, exactly when the reported ones are those of the passing budget; where the bandwidth does not overflow, exactly when the hit computation is in range. |
| `Feasibility.PassesExactly` | core/src/feasibility.cpp:102-144 | Whatever saturates, a bandwidth constraint passes if and only if the hits reach those of a budget computed from bandwidth and target. |
| `Feasibility.RatePasses` | core/src/feasibility.cpp:139-144 | Whatever saturates, the byte rate passes if and only if the expected bytes are within the passing budget. |
| `Feasibility.ThresholdOverflows` | core/src/feasibility.cpp:41-46 | Overflow in the hit computation: one part per million is reported as enough, and is not. |
| `Feasibility.ThresholdRateOverflows` | core/src/feasibility.cpp:94-144 | Overflow in the byte rate: a run passes with fewer hits than are reported as required. |
| `Feasibility.PassingIsMonotone` | core/src/feasibility.cpp:102-171 | A run that fits keeps fitting with more hits and at a lower target. |
| `Feasibility.LowMarginMeans` | core/src/feasibility.cpp:65-70 | Low margin means that something is required and that the headroom in parts per million, saturated, is at most 99999 times what is available. |
| `Feasibility.LowMarginExact` | core/src/feasibility.cpp:65-70 | The decision is right if and only if the headroom product does not overflow while 99999 times the available amount reaches the largest number. |
| `Feasibility.WideMarginTakenForLow` | core/src/feasibility.cpp:65-70 | One byte required of 200 TB is marked as low margin. |
| `Feasibility.EvaluateFeasibility` | core/src/feasibility.cpp:74-208 | Refuses exactly the invalid requests, in order; otherwise each constraint is on the request's own quantities, in exact sums and products: resident and total VRAM, RAM, disk and the time beside I/O pass if and only if what they ask for is there; budgets, expected bytes, expert capacities, ceiling and concurrency are exact quotients, and status and limiting resource follow from the first failing or first low constraint. |
| `Feasibility.CapacitiesAsked` | core/src/feasibility.cpp:131-162 | With less available than the largest number, the four capacity constraints and the ceiling pass if and only if the exact sums of dense weights, workspace, cache of all requests and budgets, and the exact time per second, are within what there is. |
| `Feasibility.BandwidthsMeant` | core/src/feasibility.cpp:94-118 | A budget is the most bytes per token that the bandwidth carries at the target rate, and the expected bytes are the share that misses VRAM and RAM, or VRAM, rounded up. |
| `Feasibility.DecisionThreshold` | core/src/feasibility.cpp:94-171 | Storage and PCIe pass if and only if the expected hits reach those of the passing budgets, with no condition; and if and only if they reach the reported ones wherever the threshold law holds. |
| `ProgramCheck.FlowIsSound` | compiler/expert_pack/compile.py:560-588 | The data-flow check accepts exactly the traces in which every value read was written before, as it is read, and no value is written twice. |
| `ProgramCheck.CheckProgram` | compiler/expert_pack/compile.py:332-617 | Decides acceptance: kernels, component mapping, layer order, roles, data flow, outputs and the operations each layer must have. |
| `ProgramCheck.AcceptedIsSound` | compiler/expert_pack/compile.py:478-617 | An accepted program runs without reading an undefined or wrongly encoded value and writes each value once. |
| `ProgramCheck.CheckOperation` | compiler/expert_pack/compile.py:485-588 | One operation passes exactly when it is well formed, not before its predecessors' layers, and its flow succeeds. |
| `ProgramNames.RenderInjective` | compiler/expert_pack/adapters.py:413-418 | Distinct values have distinct names, so the check on names is a check on values. |
| `ProgramFlow.LayeredIsAccepted` | compiler/expert_pack/compile.py:478-617 | A program built layer by layer is accepted if each layer is well formed, in place and served, and the flow succeeds. |
| `ProgramFlow.Then` | compiler/expert_pack/compile.py:560-588 | One more operation whose inputs are there and whose outputs are new and distinct, however many: the flow goes on and nothing but the outputs is added. |
| `ProgramGenerators.BuildOlmoe` | compiler/expert_pack/adapters.py:405-491 | The loop builds the operation list of the first family. |
| `ProgramGenerators.OlmoeAccepted` | compiler/expert_pack/adapters.py:405-528 | Accepted for every number of layers. |
| `HybridGenerator.BuildHybrid` | compiler/expert_pack/adapters.py:1421-1609 | The loop builds the operation list of the hybrid family. |
| `HybridGenerator.HybridAccepted` | compiler/expert_pack/adapters.py:1405-1762 | Accepted for every pattern of layer types, with dense or routed feed-forward layers. |
| `HyperGenerator.BuildHyper` | compiler/expert_pack/qwen4_exp_adapter.py:473-683 | The loop builds the operation list of the hyper-stream family, following the current streams. |
| `HyperGenerator.HyperAccepted` | compiler/expert_pack/qwen4_exp_adapter.py:462-734 | Accepted for every pattern of layer types and every set of embedding layers; the adapter guarantees that there is a layer. |
| `ProgramWiring.ReadsNearest` | compiler/expert_pack/compile.py:560-588 | In a wired program every operation reads, under each of its roles, the value last written under that role or the program input of that role. |
| `ProgramWiring.OlmoeWired` | compiler/expert_pack/adapters.py:405-491 | For every number of layers: each operation reads under every role what was last written under it, nothing written is overwritten unread, and the response is the last value written under its role. |
| `ProgramWiring.HybridWired` | compiler/expert_pack/adapters.py:1421-1609 | The same for every pattern of layer types, dense or routed. |
| `ProgramWiring.HyperWired` | compiler/expert_pack/qwen4_exp_adapter.py:473-683 | The same for every pattern of layer types and every set of embedding layers, with what is set aside while an organ works. |
| `ProgramWiring.OlmoeStaffed` | compiler/expert_pack/adapters.py:405-491 | Every layer has a block that reads the positions, a router that writes the routes and experts that read them. |
| `ProgramWiring.HybridStaffed` | compiler/expert_pack/adapters.py:1476-1571 | The same, the block of each layer being of the layer's type. |
| `ProgramWiring.HyperStaffed` | compiler/expert_pack/qwen4_exp_adapter.py:490-640 | The same for the hyper-stream family. |
| `ProgramWiring.HyperEmbeds` | compiler/expert_pack/qwen4_exp_adapter.py:491-522 | Exactly the listed layers, counted from one, read the tokens of the request again, by the embedding kernel. |
| `RecordLayout.AlignUpFacts` | compiler/expert_pack/util.py:11-14 | The next multiple of the alignment. |
| `RecordLayout.PlacedOrderly` | compiler/expert_pack/writer.py:480-519 | Placed sections are aligned, in order, apart from one another and within the record. |
| `RecordLayout.OrderlyMeansDisjoint` | compiler/expert_pack/validate.py:438-446 | Sections that pass the walk do not overlap and lie within the record. |
| `RecordLayout.ExpertSizeIsLayout` | compiler/expert_pack/writer.py:160-203 | The size function gives the length of the layout for every encoding and geometry. |
| `RecordLayout.DenseSizeIsLayout` | compiler/expert_pack/writer.py:83-149 | The same for dense matrices, with and without scales. |
| `RecordLayout.LegalIsReadable` | compiler/expert_pack/validate.py:382-420 | Every geometry the writer accepts the reader accepts, which also takes NVFP4 in multiples of sixteen. |
| `RecordFiles.LaidAt` | compiler/expert_pack/writer.py:480-552 | The section recorded in the header holds the content written for it. |
| `RecordFiles.WriteRecord` | compiler/expert_pack/writer.py:206-414 | Appends exactly header, payload and padding, refusing an unaligned start; the header is patched in without touching the payload. |
| `RecordFiles.WriteExpertRecord` | compiler/expert_pack/writer.py:417-633 | Writes exactly the legal encodings, at the predicted size; the record is accepted by the validator if and only if its scales have the values that the validator asks for. |
| `RecordFiles.WriteDenseRecord` | compiler/expert_pack/writer.py:206-414 | A written dense record has the predicted size and is accepted by the validator if and only if its scales have the values that it asks for. |
| `RecordFiles.ValidateExpertRecord` | compiler/expert_pack/validate.py:328-480 | Accepts exactly the records with consistent header, encoding, section sizes, ordered sections, payload and legal scale values. |
| `RecordFiles.CheckSections` | compiler/expert_pack/validate.py:438-446 | The walk over the sections accepts exactly ordered, aligned sections within the record. |
| `RecordFiles.AppendKeepsRecords` | compiler/expert_pack/validate.py:131-163 | Records already in a pack stay as they are checked while it grows. |
| `EncodedRecords.WriteQuantizedDense` | compiler/expert_pack/writer.py:206-414 | For every matrix of reals the encoder and the writer together leave a valid record; for every row and block, the cells at their place in the two sections hold nearest levels and the policy's code of that block of the row, filled up with zeros. |
| `EncodedRecords.WriteCalibratedDense` | compiler/expert_pack/writer.py:206-414 | Whatever calibration selects, the record is valid, and for every row the cells at its place in the two sections hold the calibrated form of that row filled up with zeros, its output error at most that of the lower-error baseline. |
| `EncodedRecords.EncodeCalibratedRow` | compiler/expert_pack/quant.py:467-615 | The bytes and scale codes of a row are those of its calibrated form: legal codes and levels, the outcome of both selections, and no worse than the baseline. |
| `EncodedRecords.EncodingStores` | compiler/expert_pack/quant.py:630-662 | The cells of block b of row i stand at block i times the blocks of a row plus b, and represent the values of that block. |
| `EncodedRecords.WriteFp4Expert` | compiler/expert_pack/writer.py:417-633 | For every expert of real matrices: written exactly for whole blocks and an aligned pack, valid, under its layer and number; for every row and block of gate and up, in this order, and of down the cells at their place represent the values. |
| `EncodedRecords.EncodeRows` | compiler/expert_pack/quant.py:630-662 | The row loop gives the codes and scales of all blocks in order, the last block of a row filled up with zeros. |
| `EncodedRecords.EncodedSizes` | compiler/expert_pack/writer.py:83-149 | What the encoder gives for a shape has the sizes that the layout calls for. |
| `Tiling.WalkIffTiles` | compiler/expert_pack/validate.py:1001-1006 | For spans in any order the sorted walk succeeds if and only if every byte is covered once and no empty span lies inside another. |
| `Tiling.CheckTiling` | compiler/expert_pack/validate.py:1001-1006 | The cursor loop decides that. |
| `Tiling.GateUpTiles` | compiler/expert_pack/adapters.py:1304-1336 | For every number of experts, width and element size the gate and up regions tile their fused tensor, in any order. |
| `Tiling.DownTiles` | compiler/expert_pack/qwen4_exp_adapter.py:393-411 | The same for the down regions. |
| `Tiling.GateUpBelongs` | compiler/expert_pack/adapters.py:1304-1336 | Of the rows that the fused tensor has for an expert the first half are those of its gate region, in order, and the others those of its up region. |
| `Tiling.DownBelongs` | compiler/expert_pack/qwen4_exp_adapter.py:393-411 | The rows of an expert are those of its down region, in order. |
| `Tiling.RegionsOpen` | compiler/expert_pack/safetensors.py:136-194 | Exactly the regions within their tensor are cut, and those pass the check on opening. |
| `Primes.PrimeIsCorrect` | compiler/expert_pack/qwen4_exp_adapter.py:36-41 | Odd trial division up to the integer square root decides primality. |
| `Primes.PrimeAbove` | compiler/expert_pack/qwen4_exp_adapter.py:44-51 | There is a prime beyond every number, so the search ends. |
| `Primes.NthPrimesAfter` | compiler/expert_pack/qwen4_exp_adapter.py:44-51 | Returns exactly the smallest primes above the start, as many as asked for, in ascending order. |

## Left out

- Compile.Run: crashes are between file operations; `fsync`, file locking and damage to files already renamed are not modelled, and digests are represented by the content they are taken of. Deleting consumed source shards is not part of this model.
- Compile.RefinesUninterrupted: payloads of records are functions of the job; their bytes are the subject of the quantization and record modules.
- CompilePlan.PackWithinLimit: is about experts whose stored size is the predicted one, as it is for one component and one encoding.
- SessionWorker: the worker process is an environment that answers every command with success or an error; sampling policy, page accounting inside the worker and multimodal prompts are reduced to a media signature. The runner's rules that a request never parks less than the prefix it resumed, that a resumed checkpoint lies in the rest of the prompt, that a hold emits one token and that active requests take slots are part of the environment; that a fresh checkpoint lies in the prompt, which validation of the request ensures, is not checked again.
- SessionRequests.Serve: requests are served one at a time, and so are the runs of `SessionRuns`; interleavings are covered by the steps in `SessionCache` and by `SessionRequests.OthersKeepContext`. An END command that the worker refuses on cancel is left out: a cancel of a listed request succeeds.
- SessionCache.Application.PersistSession: runs while the stored session is still in the map; another request that checks it out in between is not modelled. Parked-byte accounting and reading the snapshot index at start-up are left out.
- Snapshots.Directory.Persist: one writer per directory; a file that cannot be removed, which the removal of a directory ignores, is not modelled.
- DecodeBatcher.ContinuousDecodeBatcher.Dispatch: the batch callback does not fail; closing the dispatcher is not modelled. Batches are of the second protocol; the first one, without modes, is in `SessionWorker`.
- StopFiltering: text is a sequence of characters; tokenization before it is not part of this model.
- JsonParsing: input bytes are characters, so every byte string is covered; invalid UTF-8 passes through as in the source. `json.hpp` is not modelled: an object is a sequence of members in ascending order of keys.
- BlockFormats: arithmetic is over exact reals; IEEE rounding, NaN and infinities, NumPy chunking and memory mapping are left out.
- ActivationSelection.SelectPayloadCodes: the 64 highest gains are taken from the stable descending order; the source's partition may order equal gains differently.
- Feasibility: the canonical JSON of a decision, which repeats its fields, is left out.
- ProgramCheck: tensor bindings, parameters, attributes and the exact-decode section of the descriptor are left out; their checks are uniqueness of keys and membership in the tensor list. Capabilities, roles and encodings that the source writes as fixed strings are constructors or constants.
- ProgramGenerators: the Mistral, Muse and first hybrid generators repeat the argument and are left out.
- RecordFiles.WriteDenseRecord: expects a shape of rank one to five, as the header has room for; the source finds a larger rank only when it packs the header.
- RecordFiles.ValidateExpertRecord: the header is represented by its fields rather than by packed bytes.
- EncodedRecords: covers the FP4 and MXFP6 encoders; INT8 rows and NVFP4 sidecars enter the writer with whatever scale values they have, and the writer says when those are valid.
- RecordLayout.AlignUpFacts: the bit expression of the source is modelled as rounding up to a multiple.
- Tiling: the JSON shape checks of source regions are left out.
- HTTP handling, authentication, metrics, logging, configuration checks, SHA-256 and the CUDA runtime are not part of this model.
