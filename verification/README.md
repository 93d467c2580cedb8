# Block layer and mixer: a verified model

This project models the parts of a virtual machine's device code whose correctness takes an argument
rather than a look: the block layer's image drivers and request handling, and the playback mixer. Every
claim below is a contract or a lemma that Dafny verifies; run `dafny verify dfyconfig.toml` in this
directory. Nothing of the original program is executed.

What is modelled, by module:

- **qcow (version 1)**: `QcowLayout` (geometry, table words, packing), `QcowState` (the host file, the
  cluster map and the layout invariant), `QcowImage` (the driver: lookup, allocation, copy-up, the table
  cache and the one-cluster cache, reads, writes, compressed writes), `QcowFormat` (creating and opening),
  `QcowGuarantees` (when a write is exact), `QcowExamples` (images and requests for which it is not).
- **Requests on one device**: `RequestProtocol` (tracked requests as a state machine that interleaves at
  every suspension), `RequestSafety` (its invariant), `RequestTheorems` (results over all runs),
  `RequestRuns` (what becomes of each request from its arrival to its end, read off the steps of a run),
  `RequestTracking` (the list operations as the code does them), `AlignedIo` (guest reads of any offset).
- **Batches, zeroes, chains**: `WriteMerge` and `WriteOrder` (merging a batch of writes, and what that does
  to order and flags), `WriteZeroes` (splitting a zero write), `LiveCommit` (committing part of a backing
  chain under a running guest).
- **qcow2 metadata**: `MetadataCacheState` and `MetadataCache` (write-back caches that owe each other an
  order of stable writes), `SnapshotTable`, `SnapshotWriter` and `SnapshotIds` (the snapshot table on disk,
  its writing with crashes at every moment, new ids and lookups).
- **Enhanced disk format**: `QedCheck` (the consistency check and its repairs), `QedExactness` (what it says
  about real clusters).
- **Compressed disk images**: `DmgImage` (chunk search and the chunk buffer).
- **Coroutine locks**: `CoLocks` (mutex and read-write lock over the scheduler that runs their waiters).
- **Playback**: `Resampler` (fixed-point rate conversion), `Mixer` (voices added into one ring).
- `Bytes` holds what they share: files of bytes, big-endian fields, rounding.

Contracts and invariants often say `P(x) == true` instead of `P(x)`. The two mean the same. Written as a
comparison the predicate stays one fact; written plainly the verifier would take it apart at every use and
prove each conjunct again, which makes the larger proofs many times slower.

## Model

| member | source | states |
|---|---|---|
| QcowLayout.PackRoundTrip | block/qcow.c:431-434 | A compressed table word gives back offset and size if and only if the offset is below 2^(63 - cluster bits) |
| QcowLayout.Geometry.ByteIndexes | block/qcow.c:330-384 | The byte arithmetic of the lookup computes the level 1 and level 2 index of a sector's cluster |
| QcowState.SetEntryKeepsLayout | block/qcow.c:386-441 | Linking a cluster past everything in use keeps header, tables and clusters disjoint and the file equal to the map |
| QcowState.AddTableKeepsLayout | block/qcow.c:333-382 | Appending and linking an L2 table keeps that layout and every cluster |
| QcowImage.Qcow.LookupSlot | block/qcow.c:349-369 | A hit returns the slot and counts it, halving all counters before one would wrap; a miss returns the first least used slot |
| QcowImage.Qcow.FindTable | block/qcow.c:330-382 | The L2 table of a sector is cached afterwards, allocated on request and nothing else in the image changes |
| QcowImage.Qcow.DecompressCluster | block/qcow.c:498-518 | The one-cluster cache ends up holding the cluster asked for; if inflating fails it keeps its old key on what inflating has left in the buffer |
| QcowImage.Qcow.PlainClusterOffset | block/qcow.c:319-444 | The cluster of a sector becomes plain, keeping its bytes outside the part to be written: copied up, or fresh and initialised |
| QcowImage.Qcow.ReadRun | block/qcow.c:532-605 | Clusters that do not inflate included: a run gives what the cache or the file has for its cluster, or fails, and exactly which cache it leaves |
| QcowImage.Qcow.Read | block/qcow.c:520-619 | With a right cache a read returns exactly the guest's sectors, or fails only because one of them cannot be read; unless it fails the cache stays right |
| QcowImage.RunIsRight | block/qcow.c:498-518 | A run through a right cache reads as its sectors; the cache stays right unless the run fails |
| QcowImage.Qcow.Write | block/qcow.c:621-700 | A write of any length stores the data, turns the rest of each touched cluster into its residue, keeps every other sector and leaves a right cache; it fails if and only if a sector of it lies in a compressed cluster that it covers in part and that cannot be read |
| QcowImage.PlainWriteKeeps | block/qcow.c:621-700 | Writing inside a plain cluster keeps the layout and every other cluster |
| QcowImage.Qcow.CompressedClusterOffset | block/qcow.c:383-444 | A free cluster gets a compressed entry at the end of the file, an existing entry comes back as it is |
| QcowImage.Qcow.WriteCompressed | block/qcow.c:845-922 | Outcome for free, plain and compressed clusters, for incompressible data, for a short tail and for refused lengths; when the driver's state is still valid and when its cache is still right |
| QcowImage.ClusterCacheKept | block/qcow.c:498-518 | Updates that leave a compressed cluster alone leave the cached decoding right |
| QcowFormat.HeaderRoundTrip | block/qcow.c:42-55 | Decoding a written header gives its fields back |
| QcowFormat.HeaderBytes | block/qcow.c:42-55 | At which bytes of the file each field of the header is |
| QcowFormat.Create | block/qcow.c:715-820 | The created file holds the header, the backing name and a zeroed level 1 table, byte by byte: magic, version, sizes and bits, depending on whether there is a backing file |
| QcowFormat.Open | block/qcow.c:96-246 | A file of 48 bytes or more is accepted if and only if its bytes are within the limits, and cluster size, table size, disk size, number and place of the level 1 entries are those its bytes give; success gives the driver state of the image, which is valid if the image is well formed and, for the geometry, if and only if the level 1 table lies behind the header and below 2^63 |
| QcowFormat.OpenedIff | block/qcow.c:117-216 | Exactly which headers are accepted |
| QcowFormat.OpenedByBytes | block/qcow.c:117-192 | The same on the bytes of the file, and the geometry they lead to |
| QcowFormat.OpenedGeometryIff | block/qcow.c:152-192 | The tables of an accepted header cover its disk; where the level 1 table lies is not checked, and decides validity |
| QcowFormat.TableInHeaderAccepted | block/qcow.c:183-192 | An accepted header whose level 1 table is the header itself |
| QcowFormat.NewImageReadsAsBacking | block/qcow.c:715-820 | A created image opens, is well formed, and reads as its backing image throughout |
| QcowGuarantees.WriteExactIff | block/qcow.c:386-424 | A write changes exactly its sectors if and only if the untouched rest of each touched cluster survives: plain, zero below, or not changed by decryption |
| QcowGuarantees.WriteExactAsCreated | block/qcow.c:760-776 | So it always does for unencrypted images as they are created: no backing image, or clusters of one sector |
| QcowGuarantees.CompressedWriteExactIff | block/qcow.c:845-922 | Storing a compressed cluster is exact if and only if the request is aligned or each misplaced sector happens to coincide |
| QcowGuarantees.AlignmentIff | block/qcow.c:854-912 | It is right for all data if and only if the request is aligned to a cluster |
| QcowGuarantees.CompressedPlacementIff | block/qcow.c:406-441 | New compressed data goes past everything in the file, with a table word that says so, if and only if the file ends below the offset limit |
| QcowGuarantees.CompressedOverPlainIff | block/qcow.c:383-444 | Compressing over a plain cluster is exact if and only if the deflated bytes followed by the old rest decode to the data |
| QcowGuarantees.CompressedOverFarPlainIff | block/qcow.c:911-912 | Above the offset limit the bytes land elsewhere: the cluster reads as the data if and only if it did before, and others stay as they are if and only if they held the same bytes |
| QcowGuarantees.CompressedOverPlainUnencrypted | block/qcow.c:383-444 | Unencrypted: if and only if the data starts with its own deflated form and its rest was there already |
| QcowGuarantees.CompressedOverPackedIff | block/qcow.c:498-518 | Compressing over a compressed cluster reads back if and only if the cache holds no older copy (or an equal one) and the old size field covers the stream (or its cut-off start inflates to the data) |
| QcowGuarantees.CompressedSpillIff | block/qcow.c:903-916 | A longer stream leaves each neighbouring cluster and table alone if and only if they held the same bytes there |
| QcowGuarantees.FailedInflateIff | block/qcow.c:498-518 | After a cluster that does not inflate the one-cluster cache is right if and only if its key names no compressed cluster or the buffer came out as it was |
| QcowGuarantees.AnyLeftoverIff | block/qcow.c:471-496 | Whatever inflating leaves behind, it is right if and only if its key names no compressed cluster |
| QcowGuarantees.WholeClustersNotRefused | block/qcow.c:391-398 | A write of whole clusters is never refused |
| QcowGuarantees.ShortTailIff | block/qcow.c:854-866 | A short last cluster is stored if and only if it deflates when completed with zeroes; else nothing changes |
| QcowExamples.LoseBackingSector | block/qcow.c:386-424 | A run of the driver on a two-sector-cluster image with a backing image whose one-sector write loses the neighbouring sector |
| QcowExamples.MisplaceUnaligned | block/qcow.c:845-922 | A run of the driver: a compressed write at sector 1 replaces sector 0 |
| QcowExamples.ServeStaleCopy | block/qcow.c:498-518 | A run of the driver: zeroes stored over a cached compressed cluster of ones, and ones are still served |
| QcowExamples.LoseLongerStream | block/qcow.c:903-916 | A run of the driver: ones stored over a compressed cluster of zeroes are cut off and cannot be read |
| QcowExamples.ServeJunk | block/qcow.c:498-518 | A run of the driver: ones are read, then a cluster that does not inflate, and then the ones read as zeroes |
| QcowExamples.SpoilNeighbour | block/qcow.c:903-916 | A run of the driver: a longer stream runs one byte into a neighbour, which cannot be read any more |
| QcowExamples.RefusePartialWrite | block/qcow.c:391-398 | A run of the driver: half of a cluster that does not inflate cannot be written |
| QcowExamples.RefuseShortTail | block/qcow.c:854-866 | A run of the driver: the last sector of a disk of 127 is refused |
| QcowExamples.PlainClusterSpoiled | block/qcow.c:383-444 | Ones compressed over a plain cluster of zeroes: two bytes of ones in front of zeroes |
| QcowExamples.PlainZeroesExist | block/qcow.c:386-441 | Such a plain cluster of zeroes exists in a well-formed image |
| QcowExamples.FarClusterMissed | block/qcow.c:911-912 | Ones compressed for a plain cluster of zeroes above the offset limit: it does not read as ones |
| QcowExamples.FarZeroesExist | block/qcow.c:386-441 | Such a cluster exists in a well-formed image |
| RequestTracking.BlockDevice.WaitSerialisingRequests | block/block.c:2277-2319 | The list walk waits for the first conflicting request that is not itself waiting, or passes, as the protocol's step says |
| RequestTracking.BlockDevice.TrackedRequestEnd | block/block.c:2180-2188 | Ending a request unlinks it, wakes its waiters and lowers the count, as the protocol's step says |
| RequestTracking.BlockDevice.MarkRequestSerialising | block/block.c:2214-2227 | A window inside the request's whole blocks or clusters becomes exactly these, marking it again changes nothing, and the counter still counts the serialising requests |
| RequestTracking.MarkCoversIff | block/block.c:2225-2226 | The smaller offset and the larger length cover both the old window and the blocks if and only if one contains the other |
| RequestTracking.BlockDevice.TrackedRequestBegin | block/block.c:2193-2212 | A new request is at the head of the list, conflicts exactly with serialising requests that overlap its own range, and leaves the counter right |
| RequestTracking.BlockDevice.Arrive | block/block.c:2834-2852 | From entry to the first suspension these make the protocol's step |
| RequestTracking.BlockDevice.Continue | block/block.c:3186-3250 | And so they do after each transfer, up to the end of the request |
| RequestTracking.EndAllowed | block/block.c:2180-2188 | In every state of the protocol a tracked request can be ended, and the invariant stays |
| RequestTheorems.MutualExclusion | block/block.c:2263-2319 | In every reachable state two overlapping requests, one serialising, have not both passed; what a request has read for its own write is still on the device |
| RequestTheorems.PassedOnceNeverWaits | block/block.c:3221-3225 | A serialising request that has passed never waits again |
| RequestTheorems.FastPathSound | block/block.c:2284-2286 | Skipping the scan when nothing serialises loses no conflict |
| RequestTheorems.NoDeadlock | block/block.c:2303-2312 | No waiter waits for a waiter, and whenever requests are tracked one of them can move |
| RequestTheorems.WritesAreAtomic | block/block.c:3154-3268 | Over every schedule each byte of the device is as if the guest's writes had been applied one at a time, byte exact |
| RequestTheorems.RunsAreBounded | block/block.c:2277-2319 | Without new arrivals every run is bounded |
| RequestTheorems.StuckMeansDone | block/block.c:2180-2188 | A run that cannot go on has completed every request |
| RequestRuns.CompletedAsPlanned | block/block.c:3154-3268 | From its arrival to its end exactly the transfers that its kind, range and alignment call for are made for a request, in order |
| RequestRuns.CompletedWriteIsStored | block/block.c:3186-3254 | A guest write that has ended was stored by exactly one step between its arrival and its end, with the offset and data that arrived, and that step is in the write log |
| RequestRuns.EveryEntryArrived | block/block.c:3231-3254 | Every entry of the write log is the offset and data of a write that had arrived and not yet ended |
| RequestRuns.CompletedReadIsServed | block/block.c:2755-2821 | A guest read that has ended holds what the device held at its one read; one that is copied was written back once after that |
| RequestRuns.TransfersAreAligned | block/block.c:3186-3230 | Every transfer is of whole blocks, or of whole clusters where it copies, and changes nothing outside its range |
| RequestRuns.NoInterleaving | block/block.c:2263-2319 | Between two transfers of one request nothing overlapping is transferred for another, if one of the two serialises |
| RequestRuns.GoneHasEnded | block/block.c:2180-2188 | A request that arrived and is no longer tracked has ended by a step of the run |
| RequestRuns.ScheduleIsRun | block/block.c:3154-3268 | Every schedule of the protocol is such a run, with the same write log |
| AlignedIo.Device.AlignedPreadv | block/block.c:2828-2911 | A read of whole blocks gives what the image and its backing file show, and zeroes past the end of a growable device, unless it is copied; when it is copied, what is allocated then, and which driver call makes it fail |
| AlignedIo.Device.Preadv | block/block.c:2916-2981 | A read of any offset and length returns exactly the requested bytes; the range errors and driver errors exactly |
| AlignedIo.Device.CopyOnReadv | block/block.c:2755-2821 | What image and backing file show together never changes, not even if storing fails half-way; on success the whole clusters are allocated and the requested bytes returned; exactly when it fails |
| AlignedIo.CopyReadsAlikeIff | block/block.c:2867-2908 | A copied read gives what a plain read gives if and only if it stays before the end of a growable device or finds zeroes there |
| AlignedIo.CopyOnReadIff | block/block.c:2867-2908 | For all disks: if and only if it stays before that end |
| AlignedIo.CopyDiffers | block/block.c:2858-2908 | A device read both ways: zeroes, and then what lies past the end |
| AlignedIo.ReadsAreAtomic | block/block.c:2842-2852 | Over every schedule a read transfers what the writes before it leave, applied one at a time |
| WriteMerge.BatchKeepsDisk | block/block.c:4299-4364 | The merged requests leave every byte as the sorted ones would, stay well formed and sorted, and keep within the device's limits |
| WriteMerge.UnlimitedBatchHasGaps | block/block.c:4299-4364 | When no limit is met, what is left is separated by gaps |
| WriteMerge.DisjointBatchAsGiven | block/block.c:4299-4364 | A batch without overlaps leaves what the requests as given would |
| WriteMerge.MultiwriteMerge | block/block.c:4299-4364 | The in-place merge computes exactly the merged writes, each with the flags found in its place |
| WriteMerge.MultiwriteCB.Complete | block/block.c:4250-4276 | Every callback is made once, after the last request, with the first error |
| WriteMerge.FirstErrorIsFirst | block/block.c:4263-4276 | That error is one of the results and none before it failed |
| WriteOrder.OrderIff | block/block.c:4278-4293 | A reordering of requests leaves the same disk for all data if and only if no swap of overlapping requests shows: a third request, last in both orders, may hide one |
| WriteOrder.BatchAsGivenIff | block/block.c:4299-4364 | The whole batch, sorted and merged, leaves what the requests as given would, under the same condition |
| WriteOrder.SwapsOfTwo | block/block.c:4278-4293 | For two requests that means no overlapping pair is swapped |
| WriteOrder.OwnFlagsIff | block/block.c:4351-4359 | A request that is left carries its own flags for all flags of the batch if and only if no request up to it was merged |
| WriteOrder.OriginsMatch | block/block.c:4299-4364 | What is left, counted and by sector, is what the first requests of the merged groups are |
| WriteOrder.SwappedOverlap | block/block.c:4278-4293 | Two overlapping requests that sorting swaps |
| WriteOrder.HiddenSwap | block/block.c:4278-4293 | Three requests with an overlapping swap that never shows |
| WriteOrder.ThirdHasSecondsFlags | block/block.c:4351-4359 | Of three requests whose first two touch the third is submitted with the second's flags |
| WriteZeroes.PieceSize | block/block.c:3021-3047 | A piece is up to the first boundary, or up to the last, or everything, cut off at the limit; while more than an alignment unit remains it ends on a boundary if the limit is a multiple of it |
| WriteZeroes.Device.WriteZeroes | block/block.c:3013-3089 | On success exactly the range is zero and the pieces partition it; no other sector ever changes; each piece is as long as its limits say and made by the driver's own operation unless that is missing or not supported; it fails only with what a call for a piece returned or for want of memory |
| WriteZeroes.PartitionCovers | block/block.c:3013-3089 | Every sector of the range is in exactly one piece |
| LiveCommit.CommitKeepsViewIff | block/block.c:2414-2487 | Committing and dropping images keeps what overlays see, whatever the images hold, if and only if the base is no longer than any of them and growing it uncovers nothing below it |
| LiveCommit.CommitKeepsView | block/commit.c:66-94 | Under that condition every image above the dropped ones reads as before |
| LiveCommit.CopyingKeepsViews | block/commit.c:113-180 | And so it does at every moment of the copying, partial writes included |
| LiveCommit.SyncKeepsViewIff | block/block.c:2045-2153 | Committing one image at once keeps what it reads as, whatever the images hold, if and only if growing the base uncovers nothing |
| LiveCommit.CommitJob.IsAllocatedAbove | block/block.c:3932-3969 | A positive answer holds for all sectors of the run in one image above the base, a negative one in all of them; the answer is a function of the images and of how far their drivers look |
| LiveCommit.CommitJob.Populate | block/commit.c:42-60 | Copied sectors hold what the top shows, after errors and partial writes too |
| LiveCommit.CommitJob.Round | block/commit.c:122-172 | For every event where it leads: status, sector and what has been copied. Cancelling ends the job, throttling changes nothing, an error ends it or is retried as the error policy says, and without an error it moves on, unless the run to copy is reported beyond the end of the top |
| LiveCommit.NeverStuckIff | block/commit.c:144-155 | That never happens, whatever the images hold, if and only if none to be dropped is longer than the top |
| LiveCommit.FinishesIff | block/commit.c:131-170 | Rounds without errors finish the copy, after no more rounds than the top has sectors, if and only if it happens nowhere on the way |
| LiveCommit.RunRounds | block/commit.c:131-170 | The job run for any number of such rounds is where those rounds lead |
| LiveCommit.RunThrottled | block/commit.c:147-166 | A job that meets only speed limits and rounds without errors never fails, if no run is reported beyond the end of the top |
| LiveCommit.StayPut | block/commit.c:158-166 | A chain on which a job that ignores errors is where it started after any number of rounds |
| LiveCommit.GuestWriteKeepsAnswers | block/block.c:3932-3969 | The guest's writes do not change what the job is told |
| LiveCommit.CommitJob.GuestWrite | block/commit.c:137-140 | Guest writes to the active image while the job sleeps keep the job's invariant |
| LiveCommit.CommitJob.Complete | block/commit.c:66-94 | The images in between go only after a finished copy, and the guest's view stays what its own writes made it |
| MetadataCache.DependenciesAreKept | block/qcow2-cache.c:92-159 | Once a dependency or a flush is owed, the debtor's next write comes after a flush, and that after the owed table was written, whatever is evicted or fails in between |
| MetadataCache.CacheSet.SetDependency | block/qcow2-cache.c:185-206 | Every table dirty in the other cache becomes such a debt; the dependency graph stays acyclic; it fails only with the error of a host operation made in the call |
| MetadataCache.CacheSet.DependsOnFlush | block/qcow2-cache.c:208-211 | A flush is owed from then on |
| MetadataCache.CacheSet.Flush | block/qcow2-cache.c:161-183 | Success means all entries clean and stable, failure that a host operation of this call failed with this error; termination of the mutual recursion over dependencies |
| MetadataCache.CacheSet.DoGet | block/qcow2-cache.c:261-310 | The table at an offset is found or loaded and takes one more reference; callers see no other table change, pinned tables stay, and what has been written so far stays written. It fails if and only if it is not cached and every entry is pinned, or with the error of a host operation of this call |
| MetadataCache.GetWithoutFaults | block/qcow2-cache.c:261-310 | Without failing host operations a table is got whenever it is cached or some entry is unpinned |
| MetadataCache.CacheSet.Put | block/qcow2-cache.c:324-341 | Releasing a table takes one reference and changes nothing else |
| MetadataCache.CacheSet.ModifyAndMarkDirty | block/qcow2-cache.c:343-356 | A changed table is what callers see from then on |
| MetadataCache.CacheSet.Empty | block/qcow2-cache.c:213-229 | Emptying writes everything back, drops it, and callers see no difference; it fails only with the error of a host operation made in the call |
| MetadataCacheState.CleaningIsTransparent | block/qcow2-cache.c:107-159 | Writing back is invisible to callers |
| SnapshotTable.ReadsAllBack | block/qcow2-snapshot.c:43-133 | Reading a written table gives the list it was written from and ends where the writer ended |
| SnapshotTable.RecordBytes | block/qcow2-snapshot.c:63-113 | Where each field of a record is in the file, with extra data shorter or longer than known |
| SnapshotTable.ReadStaysInside | block/qcow2-snapshot.c:43-133 | A read depends on nothing outside the table |
| SnapshotWriter.SnapshotStore.SizeOfTable | block/qcow2-snapshot.c:150-167 | The first pass computes the end of the table, and refuses exactly the tables over the limit |
| SnapshotWriter.SnapshotStore.WriteTable | block/qcow2-snapshot.c:189-239 | The second pass places every record and ends where the first said |
| SnapshotWriter.SnapshotStore.WriteSnapshots | block/qcow2-snapshot.c:136-275 | At every moment and for every crash the image names the old list or the new one. It fails only for size, space or a failed host operation. Success makes the new list the one that is read, and the only one a crash can leave if and only if no operation failed (or the lists are equal): a failing last flush goes unnoticed |
| SnapshotWriter.SwitchLost | block/block.c:2747-2752 | An image without snapshots that is given one: if that flush fails, a crash may leave it without |
| SnapshotWriter.SnapshotStore.ReadSnapshots | block/qcow2-snapshot.c:43-133 | Loading gives the list on disk; it fails only if a host read does or the table is too large, and then the list is empty |
| SnapshotIds.NewIdIsNewExactlyWhen | block/qcow2-snapshot.c:277-292 | A generated id is new if and only if no id reads as the largest number or none is "0" |
| SnapshotIds.NewIdIsNext | block/qcow2-snapshot.c:277-292 | A generated id reads as one more than the largest, or as zero after the largest number there is |
| SnapshotIds.StrtoulReads | block/qcow2-snapshot.c:285-288 | Ids are read with leading spaces, a sign, and anything behind the digits; too large ones as the largest number, negative ones modulo 2^64 |
| SnapshotIds.NewIdMayBeTaken | block/qcow2-snapshot.c:277-292 | Ids 0 and 18446744073709551615 make the next one a second 0 |
| SnapshotIds.FindNewSnapshotId | block/qcow2-snapshot.c:277-292 | The loop computes that id |
| SnapshotIds.FindByIdAndName | block/qcow2-snapshot.c:294-323 | The first snapshot that meets all given criteria, none if there are none |
| SnapshotIds.FindByIdOrName | block/qcow2-snapshot.c:325-335 | An id matches before a name |
| QedCheck.Checker.Check | block/qed-check.c:219-250 | The counters are the invalid offsets, the references beyond the first and the unreferenced numbers; what is repaired and when the image is marked clean |
| QedCheck.Checker.CheckL2Table | block/qed-check.c:67-103 | One table: every valid entry marked, every invalid one counted or cleared |
| QedCheck.CleanMeansExactlyOnce | block/qed-check.c:42-60 | No repeats and no leaks mean every number after the header is referenced exactly once |
| QedCheck.RecheckFindsNothingInvalid | block/qed-check.c:108-180 | After a repairing run a second scan refers to the same clusters and finds no invalid offset |
| QedCheck.NumbersExactWhenSmall | block/qed.h:272-276 | The driver's cluster numbers are the clusters if and only if there are fewer than the cluster size less one |
| QedCheck.SingleClusterTablesAreRefused | block/qed.h:305-317 | A table of one cluster is never valid |
| QedCheck.ValidClusterIff | block/qed.h:289-300 | A cluster offset is valid if and only if it is the start of a cluster behind the header and inside the file |
| QedCheck.ValidTableIff | block/qed.h:305-317 | A table of more than one cluster is valid if and only if all of its clusters are |
| QedExactness.SmallImageExact | block/qed-check.c:219-250 | In such an image corruptions and leaks are the true counts over real clusters |
| QedExactness.FullImageCleanIff | block/qed-check.c:219-250 | An image using every cluster exactly once is reported clean if and only if it is that small; a larger one has repeats reported, or one leak for every cluster size less one of clusters |
| QedExactness.FullImageReportedLeaking | block/qed-check.c:185-195 | A sound image of 4095 clusters of 4096 bytes that is reported to leak |
| DmgImage.SearchChunk | block/dmg.c:328-343 | The search finds the only chunk with the sector, or that none has it |
| DmgImage.SearchEndsIff | block/dmg.c:328-343 | It ends if and only if the sector is in a chunk or before all of them |
| DmgImage.PastTheEndNeverEnds | block/dmg.c:328-343 | One chunk of sixteen sectors: the search for sector 16 stays where it is for ever |
| DmgImage.BufferShowsIff | block/dmg.c:382-388 | A chunk's sectors lie in the buffer and are independent of its history if and only if the chunk stores all of them |
| DmgImage.InsideBufferIff | block/dmg.c:106-132 | No read goes past the end of the buffer if and only if no copied chunk has more sectors than the buffer |
| DmgImage.ReadPastBuffer | block/dmg.c:408-411 | Two sectors stored in 512 bytes: the second lies past the end of the buffer |
| DmgImage.ReadStaleSector | block/dmg.c:382-411 | A sector that its chunk does not store, read before and after another chunk: first zeroes, then that chunk's ones |
| DmgImage.Dmg.Read | block/dmg.c:398-414 | After any reads and failures each sector read is what decoding its chunk gives; success exactly when every sector can be decoded |
| CoLocks.SafeAfterEverySchedule | block/coroutine-lock.c:117-175 | After every schedule: one mutex holder, no writer beside another holder, readers queue only for a writer, no wakeup lost |
| CoLocks.StepKeepsInv | block/coroutine.c:101-146 | Every step of scheduler and locks keeps the invariant, resumed coroutines running their former caller's wakeup list first |
| CoLocks.NobodyIsForgotten | block/coroutine-lock.c:51-78 | When only the thread itself runs, a free lock has no waiters |
| CoLocks.WokenIsNotRunning | block/coroutine.c:120-132 | A coroutine in a wakeup list is never entered while it runs |
| CoLocks.CoLock.Unlock | block/coroutine-lock.c:128-167 | Unlocking gives back and wakes one waiter or all, as the step says |
| CoLocks.UnlockWakesInOrder | block/coroutine-lock.c:61-78 | An unlock moves the first waiters, all for a writer and at most one else, in their order to the end of the caller's wakeup list |
| CoLocks.OnlyUnlockWakes | block/coroutine-lock.c:51-78 | Nothing else takes anybody from the queue, which grows at its end; wakeup lists are entered from the front |
| CoLocks.CoLock.LockAgain | block/coroutine-lock.c:117-126 | A woken waiter looks at the lock again: it takes it or queues up again |
| CoLocks.CoLock.RunRestart | block/coroutine-lock.c:51-59 | One round of running a wakeup list, as the step says |
| Resampler.ChunkingDoesNotMatter | audio/rate_template.h:47-107 | However a stream and its output are cut into calls the result is that of one call |
| Resampler.StreamIsIdeal | audio/rate_template.h:47-107 | Each output interpolates its two neighbours in the input; output stops only for want of room or of a neighbour |
| Resampler.StreamIsLinear | audio/rate_template.h:71-101 | For moderate samples each output is on the line between the two inputs around its position; at equal rates samples are passed on |
| Resampler.NoDrift | audio/rate_template.h:71-101 | Input taken follows output made over the whole stream |
| Resampler.NoOverflowExactlyWhenModerate | audio/rate_template.h:92-94 | The products do not overflow at any position if and only if both samples are at most 2^31 in magnitude |
| Resampler.InterpolationStaysBetween | audio/rate_template.h:92-94 | Then an interpolated sample is between its neighbours up to one unit |
| Resampler.ConstantSignalExactlyWhenModerate | audio/rate_template.h:92-94 | A constant signal comes through if and only if it is at most 2^31 in magnitude |
| Resampler.FullScaleSignalFlips | audio/rate_template.h:92-94 | At 2^32 it changes sign |
| Resampler.Converter.Flow | audio/rate_template.h:30-107 | The loop computes that conversion in the caller's buffer |
| Mixer.MixingKeepsSum | audio/audio.c:1015-1091 | Mixing a voice's next samples where its last ended keeps the ring the sum of all voices |
| Mixer.PlayingKeepsSum | audio/audio.c:1322-1357 | Playing and clearing keeps it so |
| Mixer.PlayingIsHeard | audio/audio.c:1359-1465 | What is played is the sum of what the voices had mixed |
| Mixer.TimelineOnlyGrows | audio/audio.c:1359-1465 | Over a run each voice's samples only grow at the end: none lost, repeated or moved |
| Mixer.UnreachedSlotsAreSilent | audio/audio.c:1322-1357 | Slots no voice has reached are silent |
| Mixer.HardVoice.Write | audio/audio.c:1015-1091 | A write mixes as much as fits, in pieces round the end of the ring, exactly as one conversion of the stream |
| Mixer.HardVoice.AudWrite | audio/audio.c:1143-1159 | A voice's write changes its own pending samples and conversion, and the ring stays the sum; while the hardware voice is off nothing is taken |
| Mixer.HardVoice.RunOut | audio/audio.c:1359-1465 | The timer's work: play the least that all voices have ready, up to what the device takes, be heard, let active voices refill; the hardware voice is switched off exactly if that was pending and no voice has anything left |
| Mixer.HardVoice.SetActive | audio/audio.c:1184-1229 | Switching voices on and off, and the hardware voice with the last one |
| Mixer.HardVoice.AddVoice | audio/audio_template.h:174-177 | A new voice starts silent and leaves the others alone |

## Findings

Properties the code does not have in general, each with its exact condition and an input for which it fails.

- A plain write can change other sectors of its cluster: `QcowGuarantees.WriteExactIff`, `QcowExamples.LoseBackingSector`. Images as they are created are not affected (`WriteExactAsCreated`).
- A plain write to part of a compressed cluster that does not inflate fails: the last `ensures` of `QcowImage.Qcow.Write`, `WholeClustersNotRefused`, `RefusePartialWrite`.
- After a failed read of such a cluster the one-cluster cache keeps its old key on a used buffer, and the cluster of that key reads as whatever is left: `FailedInflateIff`, `AnyLeftoverIff`, `ServeJunk`.
- A compressed write that does not start on a cluster boundary lands at the start of its cluster: `CompressedWriteExactIff`, `AlignmentIff`, `MisplaceUnaligned`.
- A compressed write over an allocated cluster keeps the old table word. Over a plain cluster the deflated bytes become its contents (`CompressedOverPlainIff`, `PlainClusterSpoiled`), or miss it if it lies above the offset limit (`CompressedOverFarPlainIff`, `FarClusterMissed`); over a compressed one the old size and the old cached copy stay in force (`CompressedOverPackedIff`, `ServeStaleCopy`, `LoseLongerStream`), and a longer stream runs into its neighbours (`CompressedSpillIff`, `SpoilNeighbour`).
- A compressed cluster past the offset limit is linked and stored inside the file: `CompressedPlacementIff`, `QcowExamples.PlacedInsideFile`.
- A short last cluster that does not deflate is refused, because its padded write runs past the end of the disk: `ShortTailIff`, `RefuseShortTail`.
- Opening does not look at where the level 1 table lies: `OpenedGeometryIff`, `TableInHeaderAccepted`.
- Sorting a batch of writes can swap overlapping requests: `WriteOrder.OrderIff`, `BatchAsGivenIff`, `SwappedOverlap`. Not every overlapping swap shows (`HiddenSwap`).
- After a merge later requests of a batch are submitted with the flags of others: `OwnFlagsIff`, `ThirdHasSecondsFlags`.
- Copy on read does not zero what lies past the end of a growable device: `CopyReadsAlikeIff`, `CopyOnReadIff`, `CopyDiffers`.
- The enhanced disk format's check divides by the cluster size less one. From that many clusters on its numbers are not the clusters, and a sound full image is reported to leak: `NumbersExactWhenSmall`, `FullImageCleanIff`, `FullImageReportedLeaking`. Tables of a single cluster are always refused: `SingleClusterTablesAreRefused`.
- Writing the snapshot table succeeds although its last flush fails, and a crash can then bring the old list back: the `ensures` of `SnapshotWriter.SnapshotStore.WriteSnapshots`, `SwitchLost`.
- A generated snapshot id can be taken: `NewIdIsNewExactlyWhen`, `NewIdMayBeTaken`.
- Samples above 2^31 in magnitude overflow in the resampler, although the code keeps them in 64 bits: `NoOverflowExactlyWhenModerate`, `ConstantSignalExactlyWhenModerate`, `FullScaleSignalFlips`.
- The chunk search does not end for a sector past the end or in a gap: `SearchEndsIff`, `PastTheEndNeverEnds`.
- A copied chunk that stores less than its sectors shows what the buffer held before (`BufferShowsIff`, `ReadStaleSector`), or what lies past its end (`InsideBufferIff`, `ReadPastBuffer`).
- Committing changes what the guest sees when a dropped image is shorter than the base, or when growing the base uncovers data below it: `CommitKeepsViewIff`, `SyncKeepsViewIff`, with `ShortImageShows`, `GrownBaseShows` and `SyncUncovers` giving the contents for any such chain.
- A run reported beyond the end of the top makes a round of the commit job fail, for ever if errors are ignored: `NeverStuckIff`, `FinishesIff`, `StayPut`.

## Left out

- QcowImage.Qcow.Write: requires that the file with its growth stays below 2^63 bytes; the overflow of the file position is not modelled.
- QcowImage.Qcow.WriteCompressed: says nothing about driver state after data was placed beyond the offset limit or may have run over an L2 table, where the image need not be well formed any more.
- QcowImage.Qcow.Read: after a read that fails nothing is promised about later reads beyond what `ReadRun` and `FailedInflateIff` say; images whose tables or clusters overlap are outside the layout invariant.
- QcowFormat.Open: takes the header bytes of a short file as zero; option strings, the encryption key prompt and a backing name starting with "fat:" are not modelled.
- DmgImage.SearchChunk: requires chunks in order and a sector for which the search ends; unordered tables and 32-bit wrap of the bounds are not modelled.
- MetadataCache.CacheSet.DoGet: replacing when all tables are pinned aborts in the code; here that is the result `ABORTED`, given exactly then. Hits beyond `INT_MAX` are not modelled.
- LiveCommit.CommitJob.Complete: reopening images read-only or writable again is not modelled; the walk by which `bdrv_drop_intermediate` finds and unlinks the images is a slice of the chain, and changing the backing file name is one step that succeeds or does nothing.
- LiveCommit.SyncKeepsViewIff: is about a commit that succeeds; the loop of `bdrv_commit` over runs of sectors and its error exits are not modelled.
- RequestTheorems.WritesAreAtomic: the driver's write of a request's data is one atomic step, and I/O errors inside a read-modify-write, which end the request early, are not modelled.
- AlignedIo.Device.CopyOnReadv: the growth of the image by what is stored past its end is not modelled; the pieces of a zero write are in `WriteZeroes`, here it is one call.
- Failures of the host file inside the qcow driver: after them its memory differs from the disk, so its results are about successful host operations. For the metadata caches, the snapshot writer, DMG and commit failures are part of the model.
- Coroutine interleaving inside the qcow driver: its own lock makes requests one at a time.
- zlib and AES: functions with laws (inflating undoes deflating and marks its own end, decryption undoes encryption on sectors).
- The fixed arrays of the qcow driver (tables, counters, cluster buffer) and the sequences of the snapshot list are sequence fields that the methods reassign; aliasing between them is not modelled.
- The alignment of host transfers is one sector everywhere below the request layer.
- Request protocol: whether part of a copy-on-read range is unallocated is an input of the request; wait queues are derived from who waits for whom; requests are not cancelled.
- Metadata caches are named by index, an offset belongs to one cache, hit counters do not wrap, and aborts on misuse are preconditions.
- Write batches: sorting is any sorted permutation; submitting stops at no error.
- The snapshot table: strings are byte sequences without a terminator, the header update is one sector and so atomic; cluster allocation and freeing, the overlap check before writing and a disk without write cache, where every write is flushed, are not part of this model.
- SnapshotWriter.SnapshotStore.WriteSnapshots: requires that no header write is pending, so it says nothing about a second call after one whose last flush failed.
- The enhanced disk format: the bitmap's packing into words, statistics counters, failed writes of repaired tables, and storage shared by two tables.
- Coroutines: the pool, stack switching, and lists of coroutines whose memory was reused.
- The mixer: sample format conversion and volume (samples arrive converted), capture voices, closing voices, clipping to the hardware format, the floating-point variant; a voice owner's callback is the data it will write.
- Aligned reads: byte counts above `INT_MAX` are refused as in the code, negative offsets are not modelled; the write side is in the request protocol.
- Mirroring, dirty bitmaps, other image formats, generated command wrappers, option parsing, event loops: not modelled.
