# A verified model of the Tiko storage engine

Tiko keeps PostgreSQL relations in an object store. Reads and writes of blocks go
through two write-back caches; behind them a versioned, LSM-like timeline store spreads
a plain map from chunk tags to bytes over a draft buffer, a window of recent commits,
segment files and a sorted base manifest; the WAL stream is archived beside it. This
project models those parts in Dafny and proves that each of them agrees with a simple
specification after every step, in every interleaving that the code allows for.

| part | specification | modules |
|---|---|---|
| timeline store | the last bytes put per tag, the last metadata put per fork | WindowSpec, ManifestSpec, History, StoreModel, StoreInv, StoreReads, StoreSteps, StorePatch, StoreCompaction, StoreRestart, StoreRuns, StoreEffect, StoreSplit, StoreLoss, StoreGap, Store |
| pieces of the store | sets, maps and sorted lists | ProbeTable, ChunkZone, SpillFile, DraftBuffer, DraftRuns, ChunkBloom, RelforkIndex, Timeline, SortedLists, Manifest, ManifestBatches, ByteCodec, Tikm, StoreLinks |
| caches and block files | a growable array of blocks per live fork | Cyclic, HashChains, ClockSweep, WriteBack, SlotCache, CacheRoom, ChunkCache, MetaCache, Tiling, BlockView, Blocks |
| cache under concurrency | one map, patched atomically | CacheProtocol, CacheProgress, SplitMiss, StaleFetch |
| WAL archive and restore | the stream of one connection | WalArchive, WalReceiver, WalRestore, WalRuns, WalNames, WalCoverage |
| lock and submit queue | mutual exclusion; a list of requests in claim order | RwLock, LockBound, SubmitQueue, SubmitBound, SubmitProgress |

How the parts fit:

- **Store.** `StoreModel` states every operation as a function on one state value:
  storage objects, shared memory, the local manifest file and every process's cached
  manifest. `StoreInv.Inv` relates each layer to the history of commits, `StoreSteps`,
  `StoreCompaction` and `StoreRestart` show that each step keeps it, `StoreReads` that it
  makes reads right, and `StoreRuns` states the result over runs in which writes, reads,
  commits, new processes and clean restarts land between the phases of a compaction.
  A run carries two maps: `spec`, the bytes of the newest versions that the store holds,
  and `plain`, what callers wrote, where a patch always goes over the bytes last written.
  `StorePatch` and `StoreRuns` say exactly when the two agree. `StoreEffect` says, over the
  history alone, what a compaction does when nothing runs beside it: which commits it folds,
  where the base ends up and which files are left.
  Class `Store.Store` carries out the operations with the loops of the code and is proved
  equal to those functions. A draft buffer with its spill file (`DraftBuffer`), the
  active ring with its filters and indexes (`Timeline`), the manifest merge
  (`Manifest.ApplySegments`) and the manifest file (`Tikm`) are classes and methods of
  their own; `StoreLinks` proves that, put in their places, they compute what the state
  value's functions say.
- **Caches.** `SlotCache` is the cache both caches are built on: hash chains in
  arrays, clock sweep, three-phase eviction. Its `view` is cache over store, and every
  method says what happens to the view, and when it succeeds: what is cached is served, and
  anything else needs a slot whose put does not fail and whose count is below the maximum.
  `CacheRoom` carries that along a list of chunks. `Blocks.BlockStore` puts the two caches
  together and is proved against `files`, the plain arrays of blocks.
- **Concurrency.** `CacheProtocol`, `RwLock` and `SubmitQueue` are step systems: a list
  of actions is a run, each action one locked section or one atomic operation, and the
  theorems quantify over all lists. Memory is sequentially consistent. Beside what no
  interleaving breaks, `CacheProgress`, `SubmitProgress` and the last part of `RwLock` state
  what a step or an undisturbed sequence of steps gets done.
- **WAL.** `WalReceiver.Receiver` receives a stream cut anywhere; chunk puts complete in
  any order, at any time. `WalRestore` reassembles segments, `WalCoverage` computes what
  is archived without a gap, and both are proved to give back exactly the stream.

Sizes (slots, window, shards, caps, filter bits) and hash functions are parameters and
arbitrary. Storage operations succeed, except where a set `down` of keys whose puts fail
is a parameter.

## What the proofs found

Where the code does not do what a first reading promises, the model keeps the code and
the project proves exactly when the promise holds, or gives the run that breaks it.

- **A restart can lose a committed fork and its chunks** (`StoreLoss.RestartCanLoseAChunk`).
  Compaction rewrites the local manifest file before it installs the new base
  (core/src/io/store.rs:966-980). A process that starts in between finds the new file,
  needs the old base, fetches it and writes it over the local file
  (core/src/io/store.rs:380-396). Segment files are then deleted, and a later clean restart
  takes the old header for its base: the chunk and the fork's metadata are not found.
  `StoreRestart.RestartKeepsChunkIff` and `StoreRestart.RestartKeepsMetaIff` say exactly
  which answers survive; `StoreRestart.InstalledIsCurrent` gives a check that excludes
  the case.
- **A partial patch can destroy committed bytes** (`StoreGap.BlindPatchLosesBytes`).
  Compaction publishes under the last checkpoint it folds, but the header names the last
  one that changed something (core/src/io/store.rs:963, core/src/manifest.rs:630-635).
  After a restart the base is that header, under which nothing may be stored; so while the
  next compaction has rewritten the local file and not yet installed its base, a process
  that has just started has nothing to load. To it `get_chunk` and `get_meta` answer
  not-found for committed data. `patch_chunk` takes not-found for zeros
  (core/src/io/store.rs:626-631) and stores its data over them, for everyone;
  `create_relfork` takes it for an absent fork and empties it. Such a patch is called blind
  here. `StorePatch.PatchIsPlainIff` and `StoreRuns.PatchAgreesIff` say exactly when one
  patch loses bytes, `StoreRuns.StoredIsPlainIff` which bytes a whole run has lost,
  `StoreRuns.GetChunkRefinesMapIff`, `StoreRuns.GetMetaRefinesMapIff` and
  `StoreRuns.CreateRefusesLiveIff` exactly when the answers are right, for every run,
  blind patches included. Outside of that one step of the compactor every process can load
  the base (`StoreRuns.AlwaysLoadable`).
- **Chunks of a fork deleted and created again** depend on how commits are batched:
  compaction drops chunks of forks deleted at that moment (core/src/manifest.rs:698-706).
  `ManifestBatches.TwoBatchesIff` is the exact condition,
  `ManifestBatches.RevivedForkDiffers` the example.
- **A miss fetches before it evicts** (core/src/io/cache/chunk.rs:293-301). If another
  thread patches and evicts the same chunk in between, the old bytes are linked as clean:
  `StaleFetch.StaleFetchLosesPatch` is a run. `SplitMiss.NothingLostIff` is the exact
  condition for every run, `SplitMiss.CalmRunsLoseNothing` the one a reader can see: no put
  of a tag completes between its fetch and its link.
- **A failed write is partly applied.** `write_blocks` stops at the first chunk that fails
  (core/src/ops.rs:201-213); `Blocks.PartlyWritten` says what may have changed.
- **Segment names.** The archive writes one 16-digit number
  (worker/src/tasks/wal_receiver.rs:598-600), PostgreSQL asks for two 8-digit numbers
  (core/src/pgcontrol.rs:43-50): equal exactly below segment 256 (`WalNames.NamesAgreeIff`).
  The archive is therefore keyed by segment number.
- **Bounds that matter.** The lock is sound in every interleaving of `n` threads exactly
  if `n < 2^30` (`LockBound.MutualExclusionIff`); beyond that readers run into the pending
  bit, and a writer enters beside them (`LockBound.WriterBesideReaders`). With `m` slots on
  a ring of `size` entries every interleaving delivers exactly if `m < size`, or both are
  one (`SubmitBound.DeliveryIff`). With more slots than entries one request overwrites the
  entry of another; with as many, and at least two, the worker clears an entry that was
  written a ring later. The last backend and slot pack to the word that means "not written"
  (`SubmitQueue.PackRoundTripIff`).
- **Documentation.** core/src/io/timeline.rs:425 promises that the base is below the redo
  point; the code starts with both at the default checkpoint, whose timeline is 1, and the
  model relies on neither. `SlotState::Filling` is never stored by the code and has no
  counterpart here.

## Model

| member | source | states |
|---|---|---|
| StoreRuns.GetChunkRefinesMapIff | core/src/io/store.rs:544-638 | In every state that any run of patches, metadata puts, spills, reads, commits, compaction steps, new processes and clean restarts can reach, and for every fork the run never marks deleted: a chunk read returns the bytes of the last patches to that tag, or none if there were none, if and only if no byte of the chunk was lost to a blind patch, and the base can be loaded, or the locked part finds the chunk, or it was never written. |
| StoreRuns.GetChunkRefinesMap | core/src/io/store.rs:544-638 | The case a caller wants: in a run without a blind patch of the chunk, each process that can load the base reads the plain map. |
| StoreRuns.StoredIsPlainIff | core/src/io/store.rs:601-638 | After any run a chunk's newest version is what was last written to it if and only if no byte was lost. |
| StoreRuns.StoredByteIff | core/src/io/store.rs:601-638 | Byte by byte: lost is a byte that was not zero, beside a blind patch, and not written since; a lost byte is stored as zero. |
| StoreRuns.PatchAgreesIff | core/src/io/store.rs:601-638 | After any run that lost nothing of a chunk, a patch stores what the plain map gets if and only if it is not blind, or the chunk was never written, or all it leaves of it is zero. |
| StoreRuns.PlainIsLastWritten | core/src/io/store.rs:601-638 | The plain map carried along a run is the one its patches alone determine. |
| StorePatch.PatchIsPlainIff | core/src/io/store.rs:617-638 | In every consistent state: a patch stores the bytes a plain map would get if and only if it is whole, or the base can be loaded, or the locked part finds the chunk, or it was never written, or all it leaves is zero. |
| StorePatch.PatchBaseIs | core/src/io/store.rs:623-634 | What a patch goes over: the newest version, but zeros when the read needs the base and cannot load it. |
| StoreGap.BlindPatchLosesBytes | core/src/io/store.rs:617-638 | For every configuration a reachable store with live, committed data that one process reads and another does not; a partial patch by the other leaves zeros around its data for every process. |
| StoreGap.ReadsInGap | core/src/io/store.rs:345-396 | In that gap the old process reads chunk and metadata, and the new one, which cannot load the base, reads not-found for both. |
| StoreRuns.GetMetaRefinesMapIff | core/src/io/store.rs:415-474 | In every reachable state a metadata read returns the last metadata put for the fork, or none if there was none, although window indexes may overflow, if and only if the base can be loaded, or the locked part answers, or none was put. |
| StoreRuns.CreateRefusesLiveIff | core/src/io/store.rs:520-531 | In every reachable state `create_relfork` refuses exactly the live forks, if and only if the base can be loaded, or the locked part knows the fork, or it is not live. |
| StoreRuns.AlwaysLoadable | core/src/io/store.rs:345-396 | In every reachable state outside the compactor's step between rewriting the local file and installing the base, every process can load the base manifest. |
| StoreRuns.StepKeepsInv | core/src/io/store.rs:544-1210 | Each of the sixteen kinds of step, blind patches included, keeps objects, files, window, manifests, compactor and data in agreement with the commit history and with what the newest versions hold. |
| StoreRuns.RunInv | core/src/io/store.rs:544-1210 | That agreement holds after every run from the empty store. |
| StoreRuns.ManifestsAreTrue | core/src/manifest.rs:606-635 | In every reachable state each stored, local and cached manifest represents exactly the commits up to its header and carries the redo point of the newest commit folded into it; a base named after its header may carry that of a later commit that changed nothing. |
| StoreReads.ReadChunkIsLastWrite | core/src/io/store.rs:544-599 | Any answer a chunk read gives is the newest version's bytes; and it gives them whenever the base can be loaded and the chunk is in the draft or its fork was live at every commit from that write to the base. |
| StoreReads.LockedFindIs | core/src/io/store.rs:547-587 | Under the timeline lock a read finds the newest version, or what it leaves is at or below the base. |
| StoreReads.WindowFindIs | core/src/io/store.rs:566-578 | The walk of the Bloom filters and object probes over the window finds exactly the newest version held by a window entry, false positives or not. |
| StoreReads.ChunkScanIs | core/src/io/store.rs:776-801 | The scan of segment files over a range, newest first, returns the newest version in it whose file exists. |
| StoreReads.MetaScanIs | core/src/io/store.rs:807-829 | The inclusive scan for metadata returns the newest metadata in range whose file exists, never an older one. |
| StoreReads.WindowAskIs | core/src/io/store.rs:430-447 | The walk of the fork indexes answers with the newest metadata, or stops at the first inconclusive entry with nothing newer left behind it. |
| StoreReads.StoppedMetaIs | core/src/io/store.rs:449-465 | Whatever files are left: scanning inclusively from where that walk stopped finds the newest metadata, or that is below the base or in a deleted file. |
| StoreReads.BaseManifestCovers | core/src/io/store.rs:345-396 | Whichever way a process gets its base manifest (cached, local file, stored object), it represents exactly the commits up to the base. |
| StoreReads.BaseFindIs | core/src/io/store.rs:589-598 | The base manifest answers for every version at or below the base, unless its fork was deleted since. |
| StoreReads.ReadMetaIsLastPut | core/src/io/store.rs:415-474 | In every consistent state a metadata read equals the specification's metadata. |
| StoreSplit.SplitReadIsLastWrite | core/src/io/store.rs:547-598 | The base lookup runs after the timeline lock was dropped: after any further steps that neither write the chunk nor restart, its answer is still the last bytes written, if the fork was never committed as deleted. |
| StoreSteps.PatchKeeps | core/src/io/store.rs:601-638 | Whatever the read gave, a patch makes its merged bytes the newest version of that tag only and breaks no layer; StorePatch.PatchIsPlainIff says when those bytes are the ones meant. |
| StoreSteps.PutMetaKeeps | core/src/io/store.rs:476-496 | A metadata put changes the specification at that fork only and breaks no layer. |
| StoreSteps.SpillKeeps | core/src/io/draft.rs:448-476 | A spill of the draft changes no answer. |
| StoreSteps.CommitKeeps | core/src/io/store.rs:1574-1624 | Drain, segment append, ring push and head advance together move the draft into the history and change no answer. |
| StoreSteps.CommitFiles | core/src/io/store.rs:860-892 | Appending the checkpoint to its segment file keeps files complete and the commits in files the newest ones, also when the file was deleted before. |
| StoreSteps.ReloadedKeeps | core/src/io/store.rs:345-396 | A read that refreshes the process's manifest, rewriting the local file as a side effect, breaks no layer. |
| StoreCompaction.CollectContinues | core/src/io/store.rs:933-950 | The commits gathered for folding are consecutive in the history, and any skipped since the base changed nothing. |
| StoreCompaction.FoldedFits | core/src/manifest.rs:606-727 | The folded manifest represents the commits up to the new base and carries the redo point of the newest of them; if the base would move back, only commits that changed nothing lie in between. |
| StoreCompaction.PublishKeeps | core/src/io/store.rs:962-967 | Publishing the folded manifest changes no answer, even though commits may have landed since the snapshot. |
| StoreCompaction.InstallKeeps | core/src/io/store.rs:970-980 | Moving the base to the folded manifest changes no answer. |
| StoreCompaction.SwapKeeps | core/src/io/store.rs:982-993 | Swapping the process's snapshot and listing the files to delete changes no answer. |
| StoreCompaction.DeletedIsBelowBase | core/src/io/store.rs:986-1004 | No segment file that compaction deletes holds a checkpoint at or above the base. |
| StoreCompaction.DeleteKeeps | core/src/io/store.rs:992-1004 | Deleting one file changes no answer; what it held is in the base or changed nothing. |
| StoreCompaction.SnapThroughKeeps | core/src/io/store.rs:1034-1046 | The bounded compaction starts from a snapshot that breaks no layer. |
| StoreEffect.CompactionIs | core/src/io/store.rs:905-1015 | From every consistent idle state: if no commit that is in a file lies strictly between the base and the redo point (the head while none is known), nothing changes. Otherwise the newest such commit becomes the base; the manifest stored under it, also the local file and the process's cache, represents exactly the commits up to it and carries its redo point; just the segment files below the base's segment are gone; nothing else changes. |
| StoreEffect.BoundedCompactionIs | core/src/io/store.rs:1034-1108 | The same up to and including a target: afterwards the base manifest represents the history at the target, so every commit at or below it is folded; the base is called after the last of them that changed something. |
| StoreEffect.GatheredIffChosen | core/src/io/store.rs:933-950 | A commit is gathered if and only if it is in a file, above the base, and below the bound, or for a bounded compaction at it. |
| StoreRestart.RestartKeeps | core/src/io/store.rs:1117-1210 | A clean restart (draft empty, compactor idle) on a current local file leaves every layer in agreement with the history, also when the manifest header is older than the base. |
| StoreRestart.InstalledIsCurrent | core/src/io/store.rs:1191-1200 | A local file whose header is that of the stored base manifest is current: the check a caller can make. |
| StoreRestart.RestartKeepsChunkIff | core/src/io/store.rs:1117-1210 | After any clean restart a chunk of a live fork reads the bytes it had if and only if the file of its last version exists, or the local header reaches that version, or the local file refers to the same bytes; otherwise the read gives what the local file refers to, or not-found. |
| StoreRestart.RestartKeepsMetaIff | core/src/io/store.rs:1117-1210 | The same for a fork's metadata. |
| StoreRestart.HydratedWindow | core/src/io/store.rs:1149-1189 | The hydrated window lists the newest commits, newest first, all of them from files that exist, and the head is theirs; it is full, or it holds every commit that is in a file. |
| StoreLoss.RestartCanLoseAChunk | core/src/io/store.rs:380-396 | A reachable run in which a new process starts between the rewrite of the local file and the installation of the base: its read puts the old manifest back, and after a clean restart a committed chunk of any bytes, and its fork, are not found. |
| History.FoldedCovers | core/src/manifest.rs:606-727 | Folding the next commits of the history into a manifest that covers a prefix covers the longer prefix. |
| History.CombineIsLast | core/src/manifest.rs:651-681 | With strictly increasing commit LSNs, the highest-LSN rule picks the newest commit that holds a chunk. |
| Store.Store.constructor | core/src/io/store.rs:260-338 | A new store is the empty state with the empty specification. |
| Store.Store.LoadBase | core/src/io/store.rs:345-396 | Returns the process's base manifest, or none exactly when it cannot be loaded, and refreshes its snapshot and the local file. |
| Store.Store.FindLocked | core/src/io/store.rs:547-587 | The loop over draft, window and segments computes exactly the locked part of the read. |
| Store.Store.GetChunk | core/src/io/store.rs:544-599 | The newest version's bytes or none, which are the bytes last written where store and plain map agree; none only if never written, base not loadable, or fork deleted since. |
| Store.Store.AskLocked | core/src/io/store.rs:416-466 | The loop over draft, indexes and segments computes exactly the locked part of the metadata read. |
| Store.Store.GetMeta | core/src/io/store.rs:415-474 | Exactly the last metadata put, when the base can be loaded. |
| Store.Store.PatchChunk | core/src/io/store.rs:601-638 | Puts the data over the bytes read, or over zeros, under the head's key and notes the tag in the draft; where store and plain map agreed on the chunk they agree afterwards if and only if the patch is not blind, or the chunk was never written, or all it leaves is zero. |
| Store.Store.PutMeta | core/src/io/store.rs:476-496 | Notes the metadata in the draft; the specification changes alike. |
| Store.Store.RunCommitProtocol | core/src/io/store.rs:1574-1624 | The history grows by the commit with the draft's chunks and forks, the given checkpoint and redo point and the old head before it; head and redo point move to those, the draft is empty, and window and files become what the step says. |
| Store.Store.ScanSegments | core/src/io/store.rs:776-829 | The nested loops return the newest matching checkpoint of the listed files. |
| Store.Store.ListSegments | core/src/io/store.rs:732-740 | The sorted listing of files whose range overlaps. |
| Store.Store.SnapshotRange | core/src/io/store.rs:911-931 | The range a compaction works on, read once. |
| Store.Store.SnapshotThrough | core/src/io/store.rs:1034-1046 | The range of a bounded compaction, read once. |
| Store.Store.CollectSegments | core/src/io/store.rs:933-950 | Loads the listed files and keeps the eligible checkpoints in order, which StoreEffect.GatheredIffChosen describes without them. |
| Store.Store.PublishBase | core/src/io/store.rs:962-967 | Folds into the process's base and stores the result under its target. |
| Store.Store.WriteLocalFile | core/src/manifest.rs:739-759 | The folded manifest becomes the local file. |
| Store.Store.InstallBase | core/src/io/store.rs:970-980 | The shared base moves to the target. |
| Store.Store.SwapSnapshot | core/src/io/store.rs:982-993 | The compactor's own snapshot becomes the folded manifest; what is deleted next is fixed. |
| Store.Store.DeleteNext | core/src/io/store.rs:993-1004 | One listed file is deleted. |
| Store.Store.RunCompaction | core/src/io/store.rs:905-1015 | Run with nothing beside it, compaction ends idle; the newest commit in a file strictly between base and redo point is the new base, its manifest holds all commits up to it, and just the files below it are gone (nothing changes if there is no such commit); every process still reads every last write and every last metadata. |
| Store.Store.RunCompactionThrough | core/src/io/store.rs:1034-1108 | The bounded compaction run to its end: every commit at or below the target is in the base manifest, files below the base are gone, and all answers are the same. |
| Store.Store.RestartAndHydrate | core/src/io/store.rs:1117-1210 | The loops over the files rebuild window, head and base exactly as the step says, and the store is valid again. |
| Store.Store.CollectNewest | core/src/io/store.rs:1154-1168 | The newest checkpoints of all listed files, newest first, until the window is full. |
| Store.Store.Replay | core/src/io/store.rs:1170-1178 | Pushing them oldest first leaves the newest in front and the head at it. |
| StoreLinks.PushCommit | core/src/io/store.rs:1604-1612 | Pushing the commit on the ring of filters and indexes is the model's push on its window. |
| StoreLinks.Refill | core/src/io/store.rs:1170-1178 | A fresh ring filled oldest first shows the hydrated window. |
| StoreLinks.FindInActive | core/src/io/store.rs:569-578 | The walk over the ring's real filters is the model's walk of the window. |
| StoreLinks.AskActive | core/src/io/store.rs:439-447 | The walk over the ring's real indexes is the model's walk of the window. |
| StoreLinks.DrainForCommit | core/src/io/store.rs:1599-1602 | What the draft buffer drains is the commit the model records. |
| StoreLinks.RecordForPatch | core/src/io/draft.rs:379-394 | Recording a chunk in the buffer is the model's recording, with spills before or after. |
| StoreLinks.FoldForPublish | core/src/io/store.rs:962-966 | In every consistent store `apply_segments` on the sorted lists of the base gives the manifest the model publishes. |
| StoreLinks.GatheredHaveNoTies | core/src/manifest.rs:651-653 | The gathered commits have no equal LSNs to choose between, so the unstable sort does not matter. |
| StoreLinks.FindInBase | core/src/io/store.rs:589-598 | Binary search in the bytes of the base's file is the model's base lookup. |
| StoreLinks.AskBase | core/src/io/store.rs:468-471 | The same for metadata. |
| Timeline.OverlapsExact | core/src/io/timeline.rs:118-128 | The overlap test on a segment's bounds is true exactly when some checkpoint of the segment lies in the range. |
| Types.SidMonotone | core/src/io/timeline.rs:64-69 | Checkpoint order and segment order agree. |
| Types.RankIsOrder | core/src/chunk.rs:24-33 | The derived field-by-field order of tags and forks is the order of one integer rank, and equal ranks mean equal keys. |
| ChunkBloom.NoFalseNegatives | core/src/io/timeline.rs:238-264 | Whatever the hash, size and number of probes, an inserted tag is never denied. |
| ChunkBloom.ChunkBloom.Insert | core/src/io/timeline.rs:247-253 | The filter's bits are exactly those of the old tags and the new one. |
| ChunkBloom.ChunkBloom.MaybeContains | core/src/io/timeline.rs:255-264 | True exactly when every probe's bit was set by some insertion. |
| ChunkBloom.ChunkBloom.Clear | core/src/io/timeline.rs:243-245 | The filter of no tag. |
| RelforkIndex.AnswersAreTrue | core/src/io/timeline.rs:359-374 | A hit is the checkpoint's own metadata, a definitive miss means the checkpoint did not change the fork, and an inconclusive answer is given only when entries were cut off and the fork is not among the kept ones. |
| RelforkIndex.RelforkIndex.Populate | core/src/io/timeline.rs:342-357 | Sorts, keeps what fits and notes whether anything did not. |
| RelforkIndex.RelforkIndex.Get | core/src/io/timeline.rs:359-374 | Binary search gives exactly the answer the capped sorted list allows. |
| Timeline.TimelineState.PushActive | core/src/io/timeline.rs:487-508 | The push adds the commit to the ring; the oldest entry gives way once the ring is full, and no other entry changes. |
| Timeline.TimelineState.IterActive | core/src/io/timeline.rs:586-593 | Lists exactly the entries of the newest min(pushes, W) checkpoints, newest first. |
| Timeline.TimelineIsSound | core/src/io/timeline.rs:383-412 | Filters and indexes of any size satisfy what the read path relies on: no false negatives and only true answers. |
| Timeline.ActiveCheckpoint.Populate | core/src/io/timeline.rs:398-412 | Identity, filter and index of a reused slot are all replaced. |
| ProbeTable.FillKeeps | core/src/io/draft.rs:159-179 | Filling the empty slot that ends a probe keeps every held key reachable without a gap and adds just that entry, up to full load. |
| ProbeTable.NotHeld | core/src/io/draft.rs:181-195 | A probe that meets an empty slot, or has passed every slot, proves the key absent. |
| ProbeTable.Table.Insert | core/src/io/draft.rs:276-302 | The entry is there afterwards over any older one, unless every slot holds another key: then the table has as many entries as slots and nothing changed. |
| ProbeTable.Table.Get | core/src/io/draft.rs:304-323 | Exactly the entry held for the key, whatever the load. |
| ProbeTable.Table.Drain | core/src/io/draft.rs:325-342 | Every entry comes out once and the table is empty. |
| ChunkZone.ChunkZone.Insert | core/src/io/draft.rs:230-232 | The tag is in the set afterwards, unless its shard is full without it: then as many recorded tags share its shard as that has slots. |
| ChunkZone.ChunkZone.Contains | core/src/io/draft.rs:234-236 | True exactly for recorded tags. |
| ChunkZone.ChunkZone.Drain | core/src/io/draft.rs:238-242 | All shards' tags come out and the zone is empty. |
| SpillFile.AppendSpillFrame | core/src/io/draft.rs:494-505 | One length-prefixed frame is added at the end of the file. |
| SpillFile.ReadSpillFile | core/src/io/draft.rs:507-534 | Reading back a file of any number of appended frames merges exactly those frames, oldest first. |
| SpillFile.AppendFrame | core/src/io/draft.rs:494-505 | Appending bytes at the end of the file is appending a frame to the list of frames. |
| DraftBuffer.DraftBuffer.RecordChunk | core/src/io/draft.rs:379-394 | The tag is recorded, with a spill before or after as the shard's fill requires; the retry loop on a full shard ends. |
| DraftBuffer.DraftBuffer.RecordRelfork | core/src/io/draft.rs:398-412 | The fork's entry is overwritten, with spills as for chunks. |
| DraftBuffer.DraftBuffer.ContainsChunk | core/src/io/draft.rs:423-428 | True for every recorded tag, and for every tag once something spilled. |
| DraftBuffer.DraftBuffer.GetRelfork | core/src/io/draft.rs:436-445 | The last metadata recorded, from the zone or else from the spill file. |
| DraftBuffer.DraftBuffer.SpillLocked | core/src/io/draft.rs:465-476 | Both zones move to the file in one frame, unless both are empty. |
| DraftBuffer.DraftBuffer.TrySpill | core/src/io/draft.rs:455-463 | Nothing happens while another spill holds the lock. |
| DraftBuffer.DraftBuffer.Drain | core/src/io/draft.rs:483-489 | Returns exactly what was recorded and leaves the buffer empty. |
| DraftRuns.DrainIsRecorded | core/src/io/draft.rs:379-489 | Over any sequence of records and spills since a drain: the next drain gives exactly the recorded tags and the last metadata of each fork, and no lookup before it misses a recorded entry. |
| Manifest.ApplySegments | core/src/manifest.rs:606-727 | From sorted lists, the loops give the strictly sorted lists of the base overridden by the folded checkpoints, minus deleted forks, with the redo point of the last checkpoint; `best` is the choice the sort makes among equal LSNs, and without ties it is the step function's. |
| Manifest.Merge | core/src/manifest.rs:655-689 | The two-pointer merge of two sorted lists is the sorted list of the maps' merge; the fold wins on a tag only with a higher LSN. |
| Manifest.Dedup | core/src/manifest.rs:651-653 | Of each run of equal tags the entry with the highest LSN is kept, as a strictly sorted list. |
| Manifest.SortEntries | core/src/manifest.rs:651-652 | An ordered permutation by tag, then LSN downwards. |
| Manifest.DropDeleted | core/src/manifest.rs:698-706 | Exactly the chunks of forks not deleted remain, in order. |
| Manifest.SortMeta | core/src/manifest.rs:708-710 | The metadata map as its sorted list. |
| Manifest.BestIsCombine | core/src/manifest.rs:651-653 | When equal LSNs mean equal prefixes, every order the unstable sort may choose gives the same references. |
| SortedLists.ListIsUnique | core/src/manifest.rs:606-727 | A map has one strictly sorted list, so a manifest's stored form is determined by its content. |
| ManifestBatches.TwoBatchesIff | core/src/manifest.rs:606-727 | Folding a list in two batches gives the same chunks, metadata and checkpoint as in one if and only if every chunk of a fork deleted at the cut and live at the end was written again after the cut with a higher LSN. |
| ManifestBatches.ManyBatches | core/src/manifest.rs:606-727 | However a list in which no deleted fork is live again is cut into batches, the fold is the same. |
| ManifestBatches.RevivedForkDiffers | core/src/manifest.rs:698-706 | A fork written, dropped and created again: one batch keeps the old chunk, two batches drop it. |
| Tikm.WriteTikm | core/src/manifest.rs:224-304 | The file is header, chunk records, metadata count and records, control state. |
| Tikm.OpenRoundTrip | core/src/manifest.rs:414-459 | Opening a written file recovers every header field and every count, for all sizes. |
| Tikm.CutFileFails | core/src/manifest.rs:203-216 | A written file cut short anywhere does not open. |
| Tikm.EntryRoundTrip | core/src/manifest.rs:114-130 | Tag and reference survive encoding, for all signed fork numbers. |
| Tikm.MetaRoundTrip | core/src/manifest.rs:306-312 | A metadata entry survives encoding. |
| Tikm.EntryLayout | core/src/chunk.rs:97-116 | Which bytes of a chunk entry decode to which field of its tag and of its reference. |
| Tikm.MetaLayout | core/src/manifest.rs:274-283 | Which bytes of a fork entry decode to which field; the flag is one byte and the rest is zero. |
| Tikm.EntryAt | core/src/manifest.rs:518-544 | The positioned read of entry i of a written file is the encoding of entry i. |
| Tikm.Lookup | core/src/manifest.rs:518-544 | Binary search over the file's bytes gives exactly map lookup for the chunk section. |
| Tikm.LookupMeta | core/src/manifest.rs:549-576 | Binary search over the file's bytes gives exactly map lookup for the fork section. |
| Tikm.ReadAllEntries | core/src/manifest.rs:317-338 | The chunk list comes back whole. |
| Tikm.ReadAllMeta | core/src/manifest.rs:341-357 | The fork list comes back whole. |
| ByteCodec.LeRoundTrip | core/src/chunk.rs:97-116 | Little-endian bytes of any width decode to the number. |
| ByteCodec.FromLeRoundTrip | core/src/chunk.rs:97-116 | Every byte pattern is the encoding of what it decodes to. |
| HashChains.LinkKeeps | core/src/io/cache/chunk.rs:727-736 | Pushing an unlinked slot on the front of its tag's chain keeps chains finite, acyclic and disjoint, every linked slot in its tag's bucket, and every tag linked once. |
| HashChains.UnlinkKeeps | core/src/io/cache/chunk.rs:503-531 | Taking a slot out of its chain keeps all of that and unlinks just its tag. |
| HashChains.OneChain | core/src/io/cache/chunk.rs:727-736 | A slot lies on at most one chain. |
| HashChains.TagsDiffer | core/src/io/cache/chunk.rs:711-736 | No two linked slots hold the same tag. |
| HashChains.WalkStep | core/src/io/cache/chunk.rs:471-499 | One step of the walk: the end means the tag is not linked, its slot means it is. |
| HashChains.Chains.Lookup | core/src/io/cache/chunk.rs:471-499 | The walk ends and finds a tag exactly when it is linked. |
| HashChains.Chains.Unlink | core/src/io/cache/chunk.rs:503-531 | A slot that is on the chain leaves it; otherwise nothing changes. |
| HashChains.Chains.Link | core/src/io/cache/chunk.rs:727-736 | The slot gets the tag and becomes the front of that tag's chain. |
| ClockSweep.SweepStop | core/src/io/cache/chunk.rs:563-578 | The slot found at zero is, among the slots that can be evicted, the first from the hand with the smallest count, and that count is the round. |
| ClockSweep.FoundIffBelowMax | core/src/io/cache/chunk.rs:563-578 | A victim is found exactly when the count of some slot that can be evicted is below five. |
| ClockSweep.SlotOfStep | core/src/io/cache/chunk.rs:563-566 | The step counter taken modulo the number of slots walks them in order from the hand. |
| SlotCache.SlotCache.EvictAndPin | core/src/io/cache/chunk.rs:562-677 | Yields a free slot and no reader sees a change. Among the slots whose put does not fail, the victim is the first from the hand with the smallest count, and each of their counts is lowered by exactly its passes; the sweep gives up if and only if all of them are at five. |
| SlotCache.SlotCache.TryEvict | core/src/io/cache/chunk.rs:580-669 | The three phases for one candidate: it succeeds if and only if the slot is clean or its put does not fail; then it is flushed, unlinked and cleared, else left linked with its data. |
| SlotCache.SlotCache.TryFlush | core/src/io/cache/chunk.rs:759-793 | A dirty slot's value becomes the store's and the slot clean; a failed put leaves slot and store as they were. |
| SlotCache.SlotCache.Insert | core/src/io/cache/chunk.rs:689-742 | Evicts, writes and links unless the tag is linked by then; readers see just the new value, in a slot with count one; there is no victim if and only if no evictable slot's count is below five. |
| SlotCache.SlotCache.FlushAll | core/src/io/cache/chunk.rs:799-837 | Readers see no change; it ends well if and only if no put it needs fails, and then every value asked for is the store's. |
| SlotCache.SlotCache.Drop | core/src/io/cache/chunk.rs:842-899 | The slot is unlinked and its value discarded: readers see the store's. |
| SlotCache.SlotCache.Touch | core/src/io/cache/chunk.rs:443-454 | One more, at most five. |
| SlotCache.SlotCache.Untouch | core/src/io/cache/chunk.rs:459-469 | One less, at least zero; the count before it is returned. |
| WriteBack.UnlinkClean | core/src/io/cache/chunk.rs:631-651 | Unlinking a clean slot hides nothing: the store has the same value. |
| WriteBack.FlushSlot | core/src/io/cache/chunk.rs:759-793 | Cache over store reads the same before and after a flush. |
| CacheRoom.ServingNext | core/src/io/cache/chunk.rs:281-306 | Serving one more chunk of a list (a hit raises its count, a miss leaves a slot with count one) keeps the answer to whether the whole list can be served. |
| CacheRoom.ServingFails | core/src/io/cache/chunk.rs:293-301 | A chunk that cannot be served shows that the list could not be served from the start. |
| CacheRoom.ServeIf | core/src/io/cache/chunk.rs:443-454 | Any list of different chunks can be served if all of them are cached, or if some evictable slot's count is three or less. |
| ChunkCache.ChunkCache.GetChunk | core/src/io/cache/chunk.rs:281-306 | Cache, then store: the bytes a reader should see, and a read changes nothing a reader can see. Not-found if and only if there is no such chunk; no slot if and only if there is one, it is not cached, and no evictable slot's count is below five; else the chunk is cached afterwards. |
| ChunkCache.ChunkCache.PatchChunk | core/src/io/cache/chunk.rs:323-377 | The data is put over what readers saw, or over zeros; it fails if and only if the chunk is not cached and no evictable slot's count is below five, and then nothing changes. |
| ChunkCache.ChunkCache.FlushDirtyChunks | core/src/io/cache/chunk.rs:799-837 | For one fork or all: it ends well if and only if no dirty chunk's put fails, and then the store has what readers see. |
| ChunkCache.ChunkCache.TruncateRelfork | core/src/io/cache/chunk.rs:842-899 | Cached chunks at or beyond the first block leave the cache unflushed, a straddling chunk and all other forks stay. |
| MetaCache.MetaCache.GetMeta | core/src/io/cache/meta.rs:222-243 | The metadata readers should see; not-found if and only if there is none, and no slot if and only if there is some, not cached, and no slot can be had. |
| MetaCache.MetaCache.GetNblocks | core/src/io/cache/meta.rs:245-253 | The length of a live fork, which is cached afterwards; a deleted fork is not found; no slot exactly as for GetMeta. |
| MetaCache.MetaCache.PutNblocks | core/src/io/cache/meta.rs:262-281 | The new length of a live fork; an error changes nothing; no slot exactly as for GetMeta. |
| MetaCache.MetaCache.PutDeleted | core/src/io/cache/meta.rs:294-318 | Marks a live fork and zeroes its length; an error changes nothing; no slot exactly as for GetMeta. |
| MetaCache.MetaCache.CreateRelfork | core/src/io/cache/meta.rs:333-369 | An absent or deleted fork becomes live and empty; a live one is refused; no slot if and only if the fork is not cached and no slot can be had. |
| MetaCache.MetaCache.LoadFromStore | core/src/io/cache/meta.rs:681-686 | Fetches and inserts; not-found if and only if there is none, no slot if and only if none can be had. |
| MetaCache.MetaCache.FlushDirtyMetas | core/src/io/cache/meta.rs:738-781 | For one fork or all: it ends well if and only if no dirty entry's put fails, and then the store has what readers see. |
| Tiling.PiecesTile | core/src/chunk.rs:148-206 | The pieces of a block range tile the caller's buffer: the first starts it, each begins where the last ended, the last ends it. |
| Tiling.PieceFits | core/src/chunk.rs:148-170 | A piece stays within its chunk and is marked full exactly when it covers it. |
| Tiling.BlockInPiece | core/src/chunk.rs:148-170 | A block is in exactly the piece of its own chunk, at its own place in chunk and buffer. |
| Tiling.TagsAre | core/src/chunk.rs:148-170 | The chunks of a block range are those of its pieces, in order, no chunk twice. |
| Tiling.ChunkTagIter.constructor | core/src/relfork.rs:97-109 | The iterator starts before the first piece of the range. |
| Tiling.ChunkTagIter.Next | core/src/chunk.rs:151-170 | Yields the pieces in order, then none. |
| BlockView.PatchPiece | core/src/ops.rs:201-213 | Patching the next piece extends what is written by exactly its blocks and changes no other block of any fork. |
| BlockView.FillPiece | core/src/ops.rs:167-177 | Copying the next piece out of its chunk fills the buffer as far as the piece reaches. |
| Blocks.AgreesTruncated | core/src/io/cache/control.rs:57-65 | Dropping cached chunks beyond the end of a file hides none of its blocks. |
| Blocks.AgreesCut | core/src/ops.rs:182-226 | A write stopped after some pieces, with the old length, changed only blocks it covers. |
| Blocks.BlockStore.Create | core/src/ops.rs:53-65 | An absent fork becomes live and empty, an existing one is refused: it succeeds if and only if the fork is absent and its entry is cached or a slot can be had. |
| Blocks.BlockStore.GetNblocks | core/src/ops.rs:67-73 | The length of a live fork; it succeeds if and only if the fork is live and its entry is cached or a slot can be had. |
| Blocks.BlockStore.Truncate | core/src/io/cache/control.rs:57-65 | The file is cut to its first blocks, metadata first, then cached chunks; it succeeds exactly as GetNblocks does. |
| Blocks.BlockStore.Delete | core/src/io/cache/control.rs:67-71 | The fork is gone, metadata first, then cached chunks; it succeeds exactly as GetNblocks does. |
| Blocks.BlockStore.FlushDirty | core/src/io/cache/control.rs:87-91 | It succeeds if and only if no dirty entry of either cache has a put that fails; afterwards the store alone has every live file, whole. |
| Blocks.BlockStore.GetChunkMerge | core/src/ops.rs:110-128 | A whole chunk straight into its place, or the asked part of it, and nothing else in the buffer; errors exactly as the chunk cache has them. |
| Blocks.BlockStore.ReadBlocks | core/src/ops.rs:145-180 | The bytes last written to each block, clipped at the end of the file. It succeeds if and only if the fork is live, the range starts within the file, its entry is cached or a slot can be had, and the chunks of the clipped range can be served in order. |
| Blocks.BlockStore.WriteBlocks | core/src/ops.rs:182-226 | The blocks are overwritten from the start on and the file grows to hold them; a failed write may have changed a first part of what it covers, never the length. While puts of the fork's chunks work it succeeds if and only if the fork is live, its entry is cached or a slot can be had, and the chunks of the range can be served in order. |
| CacheProtocol.RunKeepsInv | core/src/io/cache/chunk.rs:281-837 | In every interleaving of hits, patches, flushes and three-phase evictions, cache over store is the specification: no completed patch is lost. |
| CacheProtocol.UnlinkedIsStored | core/src/io/cache/chunk.rs:631-651 | A slot that eviction unlinks holds exactly the store's bytes for its tag. |
| CacheProtocol.HitReadsLastPatch | core/src/io/cache/chunk.rs:285-291 | A pinned hit reads the bytes of the last completed patches. |
| CacheProtocol.MissReadsLastPatch | core/src/io/cache/chunk.rs:293-297 | A tag in no slot has its last completed patches in the store. |
| CacheProtocol.FailedPutStays | core/src/io/cache/chunk.rs:759-793 | A failed put leaves the slot linked, dirty and unchanged, and the store as it was. |
| CacheProtocol.StepKeeps | core/src/io/cache/chunk.rs:281-837 | Every single step keeps pins, slots, threads and contents in order. |
| CacheProgress.FlushGoesOnIff | core/src/io/cache/chunk.rs:759-775 | After pinning, a flush goes on if and only if the slot is dirty. |
| CacheProgress.PutStores | core/src/io/cache/chunk.rs:759-793 | Whatever happened since the flush looked, a put that succeeds gives the store the last completed patches of the slot's tag and cleans just that slot. |
| CacheProgress.FlushCompletes | core/src/io/cache/chunk.rs:799-837 | From any state of the protocol, a flush of a dirty slot that nothing overtakes stores its last completed patches and leaves all else as it was. |
| CacheProgress.HitCompletes | core/src/io/cache/chunk.rs:284-291 | A hit reads, or patches, exactly the last completed patches of its tag, and gives its pin back. |
| CacheProgress.UnlinksIff | core/src/io/cache/chunk.rs:631-651 | Phase three unlinks the slot if and only if no other thread holds it and it is clean; otherwise it gives up. |
| CacheProgress.EvictionCompletes | core/src/io/cache/chunk.rs:562-677 | An eviction of an unpinned slot that nothing overtakes ends with the slot out of its chain and cleared and its last completed patches in the store. |
| CacheProgress.MissCompletes | core/src/io/cache/chunk.rs:293-301 | Any unpinned slot serves any chunk that is not cached: after eviction and fill it is linked with the last completed patches and the caller's own. |
| SplitMiss.LinkKeepsIff | core/src/io/cache/chunk.rs:293-301 | With an owned slot and a tag in no slot, linking fetched bytes keeps the protocol's invariant if and only if the store still has them (under a patch: as far as it leaves them). |
| SplitMiss.SplitStepKeepsIff | core/src/io/cache/chunk.rs:281-377 | With fetch and link as steps of their own, a step keeps the invariant if and only if it is not a link of bytes the store no longer has. |
| SplitMiss.NothingLostIff | core/src/io/cache/chunk.rs:281-377 | Over every run with split misses: no patch is lost at any moment if and only if no link in it is such a link. |
| SplitMiss.CalmRunsLoseNothing | core/src/io/cache/chunk.rs:293-301 | If no put of a tag completes between its fetch and its link, no patch is ever lost. |
| StaleFetch.StaleFetchLosesPatch | core/src/io/cache/chunk.rs:293-301 | A run in which another thread's patch and eviction overtake a fetch: the fetched bytes are linked as clean and hide the patch. |
| RwLock.MutualExclusion | core/src/io/utils/rw_lock.rs:30-143 | In every interleaving of fewer than 2^30 threads a writer is alone, and the word encodes exactly who holds the lock. |
| RwLock.PendingBlocksReaders | core/src/io/utils/rw_lock.rs:53-123 | While the pending bit is set readers only leave. |
| RwLock.StepKeeps | core/src/io/utils/rw_lock.rs:53-143 | Every atomic operation keeps the encoding. |
| RwLock.EnterRead | core/src/io/utils/rw_lock.rs:53-70 | A won exchange of a reader counts one more. |
| RwLock.EnterWrite | core/src/io/utils/rw_lock.rs:72-123 | A writer enters only a lock that nobody holds, pending or not. |
| RwLock.LeaveRead | core/src/io/utils/rw_lock.rs:30-33 | A reader's release takes one off a count that is at least one. |
| RwLock.LeaveWrite | core/src/io/utils/rw_lock.rs:42-45 | A writer's release leaves the free word. |
| RwLock.TryWriteIff | core/src/io/utils/rw_lock.rs:132-142 | In every interleaving `try_write` takes the lock if and only if nobody holds it and no writer waits; else it gives up. |
| RwLock.FirstExchangeIff | core/src/io/utils/rw_lock.rs:72-82 | So does the first exchange of `write`, if it does not fail for no reason; else the thread goes on to wait. |
| RwLock.LoadForWriteIff | core/src/io/utils/rw_lock.rs:83-123 | What a waiting writer does next after looking, by who holds the lock and whether a writer is pending. |
| RwLock.WriteExchangeIff | core/src/io/utils/rw_lock.rs:83-123 | A waiting writer's exchange takes the lock, or sets the pending bit, exactly when the holders are still as it saw them. |
| RwLock.LoadForReadIff | core/src/io/utils/rw_lock.rs:53-60 | A reader that looks goes on if and only if there is no writer and none pending. |
| RwLock.ReadExchangeIff | core/src/io/utils/rw_lock.rs:60-70 | A reader's exchange takes the lock if and only if there is no writer, none pending, and as many readers as it saw. |
| RwLock.ReleaseFrees | core/src/io/utils/rw_lock.rs:30-46 | A release gives up just the holder's own share; the last one leaves the lock unheld. |
| LockBound.MutualExclusionIff | core/src/io/utils/rw_lock.rs:30-143 | Every interleaving of `n` threads keeps a writer alone and the word exact if and only if `n < 2^30`. |
| LockBound.WriterBesideReaders | core/src/io/utils/rw_lock.rs:53-123 | With more than 2^30 threads a run admits a writer beside 2^30 readers. |
| SubmitQueue.PackRoundTripIff | core/src/io/io_control.rs:420-429 | Exactly which pairs of backend and slot survive packing: all backends below 2^30, but the very last pair packs to the word that means not written. |
| SubmitQueue.DeliveredInClaimOrder | core/src/io/io_control.rs:710-807 | In every interleaving with fewer slots than ring entries, or one of each: what was taken out is exactly the first requests claimed, in claim order, each once, and every later one still waits at its position. |
| SubmitQueue.NeverOverwrites | core/src/io/io_control.rs:437-449 | No backend ever overwrites an entry that was not consumed. |
| SubmitQueue.AlwaysStarts | core/src/io/io_control.rs:732-744 | The request the worker holds is always in the submitted state, so none is skipped. |
| SubmitQueue.FullDispatcherKeepsRequest | core/src/io/io_control.rs:777-787 | A full dispatcher loses nothing: the request waits at its position, submitted, its entry in place. |
| SubmitQueue.LoadEntryKeeps | core/src/io/io_control.rs:718-726 | A claimed position that is not written yet stops the poll and is not passed. |
| SubmitQueue.RunKeepsInv | smgr/src/pipeline.rs:86-231 | Slots, positions, entries and the worker stay in order through every interleaving of backends, worker and completions. |
| SubmitBound.DeliveryIff | core/src/io/io_control.rs:437-449 | With `m` slots on a ring of `size` entries every interleaving delivers if and only if `m < size`, or both are one. |
| SubmitBound.Overwritten | core/src/io/io_control.rs:437-449 | With more slots than entries, all that see room at once take positions and the last overwrites the entry of the first, which waits. |
| SubmitBound.Erased | core/src/io/io_control.rs:767-776 | With as many slots as entries, and at least two, the worker clears an entry that a request wrote a ring later, before the tail moved. |
| SubmitQueue.WrappingAgrees | core/src/io/io_control.rs:437-449 | 32-bit counters give the same entry and, below 2^32, the same distance as unbounded ones. |
| SubmitProgress.TakesOldestIff | core/src/io/io_control.rs:718-726 | The worker takes the oldest request not taken out if and only if it saw it claimed and its entry is written; otherwise it stops the poll there. |
| SubmitProgress.TakesOut | core/src/io/io_control.rs:732-806 | A request the worker holds is started, and handed over or failed it is the next one taken out. |
| SubmitProgress.Drains | core/src/io/io_control.rs:710-807 | A poll that finds every claimed position written hands over all of them, in claim order, and leaves an empty ring. |
| SubmitProgress.FindsRoom | core/src/io/io_control.rs:437-449 | While the worker rests, the test for room succeeds for every published request. |
| SubmitProgress.Submits | core/src/io/io_control.rs:437-449 | A request that saw room gets the next position and its entry is written. |
| SubmitProgress.Finishes | smgr/src/pipeline.rs:177-231 | A request that completes gives its slot back, free and idle, and nothing else moves. |
| WalArchive.AppendKeeps | worker/src/tasks/wal_receiver.rs:359-360 | More bytes of the stream in the open segment keep everything archived and under way in order. |
| WalArchive.FireKeeps | worker/src/tasks/wal_receiver.rs:362-375 | A full window handed to a put is the stream at its place, and the mark moves past it. |
| WalArchive.CompleteKeeps | worker/src/tasks/wal_receiver.rs:368-373 | Any put under way may be the next to complete; nothing archived gets shorter. |
| WalArchive.TailKeeps | worker/src/tasks/wal_receiver.rs:513-530 | A tail put at the mark, which does not move, is later replaced only by a longer chunk. |
| WalArchive.TailArchivesAll | worker/src/tasks/wal_receiver.rs:538-561 | With no put under way, a tail put makes every received byte archived. |
| WalArchive.SealCloses | worker/src/tasks/wal_receiver.rs:397-445 | A segment received to its end is closed: by its sealed object if its front is known, else by its chunks. |
| WalArchive.DropKeeps | worker/src/tasks/wal_receiver.rs:430-435 | Deleting some or all chunks of a sealed segment, at any later time, loses nothing. |
| WalReceiver.Receiver.constructor | worker/src/tasks/wal_receiver.rs:229-234 | A connection starts at the slot's position with nothing confirmed beyond it. |
| WalReceiver.Receiver.StatusIsTrue | worker/src/tasks/wal_receiver.rs:568-584 | Whenever a status is sent, every streamed byte below its LSN is in the archive, and so is the sealed object of every whole segment below it. |
| WalReceiver.Receiver.SendStatus | worker/src/tasks/wal_receiver.rs:568-584 | Reports the confirmed LSN, all of which is archived. |
| WalReceiver.Receiver.Keepalive | worker/src/tasks/wal_receiver.rs:257-262 | Answered with a status if the primary asks. |
| WalReceiver.Receiver.HandleXLogData | worker/src/tasks/wal_receiver.rs:301-382 | A message cut anywhere, over any number of segment boundaries, adds exactly its bytes to what is received. |
| WalReceiver.Receiver.TakePiece | worker/src/tasks/wal_receiver.rs:328-376 | A full segment is sealed before the next begins; a segment begun in its middle gets a zero prefix that is never uploaded. |
| WalReceiver.Receiver.FirePuts | worker/src/tasks/wal_receiver.rs:362-375 | Every full window is handed to a put, and less than a window waits. |
| WalReceiver.Receiver.SealSegment | worker/src/tasks/wal_receiver.rs:397-445 | The confirmed LSN moves to the segment's end, a status is sent, and the sealed object is the buffer if the front is known. |
| WalReceiver.Receiver.JoinChunksAndFlushTail | worker/src/tasks/wal_receiver.rs:538-561 | Waits for all puts and stores the tail; then all that came is archived. |
| WalReceiver.Receiver.FlushTailNow | worker/src/tasks/wal_receiver.rs:513-530 | The tail is stored at its offset and the segment is not changed. |
| WalReceiver.Receiver.MaybeFlushOnCheckpoint | worker/src/tasks/wal_receiver.rs:486-502 | A generation seen for the first time flushes the tail, once. |
| WalReceiver.Receiver.FlushPartialTail | worker/src/tasks/wal_receiver.rs:452-467 | At the end of the stream all that came is archived and no sealed object is added. |
| WalReceiver.Receiver.Compact | worker/src/tasks/wal_receiver.rs:430-435 | Removes chunks of a sealed segment only. |
| WalRestore.Restore | cli/src/bin/tiko_restore.rs:63-119 | The sealed object if there is one; not-found exactly without chunks; refused exactly if some chunk does not fit; else each byte comes from a chunk that covers it or is zero, whatever the order of the listing. |
| WalRestore.RestoreAfterFlush | cli/src/bin/tiko_restore.rs:63-119 | After the final flush restore gives the stream on every received byte and zeros elsewhere, and not-found exactly for a segment of which nothing was received. |
| WalRestore.RestoreMeanwhile | cli/src/bin/tiko_restore.rs:63-119 | At any time restore gives every byte below the confirmed LSN. |
| WalRestore.ChunksGiveTheStream | cli/src/bin/tiko_restore.rs:92-113 | An assembled byte is the stream's, or zero where nothing is archived. |
| WalRuns.Connection | worker/src/tasks/wal_receiver.rs:229-290 | A whole connection, whatever the cuts, checkpoints, keepalives and order of puts, leaves an archive that is the stream. |
| WalRuns.CutsDoNotMatter | cli/src/bin/tiko_restore.rs:63-119 | Two archives of the same stream, cut differently, restore to the same bytes. |
| WalNames.NamesAgreeIff | worker/src/tasks/wal_receiver.rs:598-600 | The archive's segment name is the one PostgreSQL asks for if and only if the segment number is below 256. |
| WalNames.ParseRoundTripIff | core/src/pgcontrol.rs:82-89 | PostgreSQL's name parses back to the segment number if and only if that is below 2^40. |
| WalCoverage.WalContiguousRun | core/src/io/store.rs:90-122 | For any well-formed entries in any order the result ends with the highest segment, covers every LSN in it, and cannot be extended downwards; none exactly for no entries. |
| WalCoverage.RunIsUnique | core/src/io/store.rs:81-122 | Those three conditions leave one range. |
| WalCoverage.ScanStops | core/src/io/store.rs:98-119 | Wherever the scan stops, the LSN below is covered by no entry. |
| WalCoverage.CollectSegments | core/src/io/store.rs:1437-1451 | Per segment: sealed or not, lowest and highest chunk offset. |
| WalCoverage.EntryOf | core/src/io/store.rs:1458-1490 | The whole segment if sealed, else from its first chunk to the end of its last. |
| WalCoverage.ArchivedWalRun | core/src/io/store.rs:1420-1494 | One entry per archived segment, and their contiguous run. |
| WalCoverage.EntryIsExact | core/src/io/store.rs:1458-1490 | After a connection's final flush an entry is exactly what was received of its segment: the chunks between the first and the last leave no gap. |
| WalCoverage.RunIsReceived | core/src/io/store.rs:1420-1494 | The archived run is then exactly the range of LSNs the connection received. |
## Left out

- StoreRuns.GetChunkRefinesMapIff: assumes that the fork is never marked deleted; StoreReads.ReadChunkIsLastWrite and StorePatch.PatchIsPlainIff weaken that to "live since the write".
- StoreRuns.GetChunkRefinesMap: states less than StoreRuns.GetChunkRefinesMapIff, for runs without blind patches.
- StoreRuns.RunInv: runs start from the empty store, commits have strictly increasing LSNs and timelines that never decrease, and restarts are clean; point-in-time recovery and freshly seeded branches leave the head below the base and are not claimed.
- StoreRestart.RestartKeeps: needs a current local file, and so do restarts inside a run; StoreRestart.RestartKeepsChunkIff and StoreRestart.RestartKeepsMetaIff cover the others. Crashes in mid-interval are not modelled.
- Store.Store.RunCompaction: states what a compaction does when no operation lands between its phases; the class runs the phases one after the other; what lands between them is proved on the state value in StoreRuns.
- Store.Store.RunCommitProtocol: the cache flush before the commit is not part of it (Blocks.BlockStore.FlushDirty is that flush), nor are the control-file bytes and the database's JSON record.
- StoreSplit.SplitReadIsLastWrite: the locked part of a read is one step, and so is the base lookup; files deleted beside the locked part lie below the base (StoreCompaction.DeletedIsBelowBase).
- Manifest.ApplySegments: the timestamp and the control-file bytes are carried by Tikm only, and the wire form for the object store is not modelled.
- SpillFile.ReadSpillFile: the serializer is any pair of functions with a round trip whose frames fit the 32-bit length prefix; msgpack itself is not modelled.
- DraftBuffer.DraftBuffer.RecordChunk: each operation is one step; interleavings inside a spill are not modelled.
- SlotCache.SlotCache.EvictAndPin: the counts of slots whose put fails are not pinned after a sweep. One thread, so pins do not appear; pins, locks and interleavings are in CacheProtocol, where the sweep's choice of slots is arbitrary.
- CacheProtocol.RunKeepsInv: a miss fetches and links in one step; SplitMiss takes it apart. Truncation under concurrency and the metadata cache's protocol, which has the same three phases, are not part of it.
- Blocks.BlockStore.WriteBlocks: with failing puts of the fork's own chunks only the partial effect is stated, not when it succeeds. The store behind the caches is a map that always answers, so blind patches do not appear; blocks below 2^32 - 32, writes that start at or below the current length, and the all-zero fork identifier excluded, as it marks an empty slot; the path without shared memory that initdb uses is not modelled.
- Blocks.BlockStore.ReadBlocks: on an error the buffer's contents are unspecified, as in the code.
- WalReceiver.Receiver.HandleXLogData: messages of one connection are contiguous, its objects start from an empty archive and puts succeed; after a reconnect a short checkpoint tail may replace a longer chunk from before.
- WalReceiver.Receiver.Compact: any set of chunks of a sealed segment may vanish, whatever the delete call removes.
- WalRestore.Restore: before the page header is synthesized; objects whose name holds no offset are skipped by the code and do not appear here.
- WalCoverage.EntryOf: the last chunk of a listing is still there when its length is fetched.
- WalCoverage.WalContiguousRun: states nothing for entries that reach out of their segment or list a segment twice, which the code never builds.
- CacheProgress.MissCompletes: undisturbed sequences; that some thread always gets on under contention is not stated.
- SubmitProgress.Drains: for a poll that nothing interrupts.
- RwLock.MutualExclusion: spinning, back-off and fairness are not modelled, and memory is sequentially consistent.
- SubmitQueue.DeliveredInClaimOrder: all pools' slots are numbered together, no process dies, counters do not wrap (SubmitQueue.WrappingAgrees) and slot payloads are opaque.
- SegState is a value that the receiver replaces, where the code updates its buffer in place.
- Two compactors at once and the pause handshake between compactor and checkpointer.
- File and object I/O, compression, JSON, PostgreSQL's own interfaces, latches, logging, statistics, the replication protocol's wire format and authentication.
- Command-line tools other than the assembly of a segment, organisation and database records, recovery configuration and control-file patching: plumbing without state to keep.
