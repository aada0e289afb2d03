# Verification of bc-duplicate

bc-duplicate finds duplicate files. It walks the input directories, keeps one array of file entries, and narrows it down
in three stages (size, a fast hash of the first and last block, a digest of the whole content), always by sorting a window
of the array in place and cutting it into runs. The last stage reads files in batches through an io_uring ring. The groups
that remain are written as JSON.

This project models that machinery in Dafny and proves that it computes what it is for: the groups reported are the
classes of files with equal content. `dafny verify dfyconfig.toml` checks everything.

## How the model is laid out

| file | models |
|---|---|
| `Entries`, `CStrings`, `Sequences` | file entries, group windows, NUL-terminated strings; sequences without repetition |
| `Sorting`, `KeyClasses` | the sorting library's contract; windows that are exactly the classes of a key |
| `GroupingBySize`, `GroupingByHash` | the three grouping stages, in place on one array |
| `StreamReader` | the synchronous reader |
| `RingSlots`, `RingLog`, `RingKernel`, `RingBatch`, `RingConsume` | the io_uring reader: one slot, one chunk's completions, the kernel, the driver, the batch with its fallback |
| `RingTurns`, `RingStale` | the order of a chain's answers; exactly when a chunk can meet answers to an earlier one, and what they do |
| `Candidates`, `FastPass`, `FullPass`, `Schedules` | candidate order, the two hashing passes, and the passes as a state machine over any number of workers |
| `Statistics`, `Pipeline` | the totals; the stages in sequence |
| `Content`, `Guarantees`, `Projections`, `Independence` | what the groups say about file contents, and that discovery order does not matter |
| `FileTree`, `Walk`, `Discovery` | the directory walk and reachability |
| `Filter` | the name filter |
| `JsonText`, `JsonReport`, `Utf8` | JSON texts with a reader for them; the report writer; when the report is UTF-8 |
| `Application`, `CleanRun` | a whole run, from the file tree to the text; a run where nothing outside the program fails |

The C code changes arrays and structures step by step, and so does the model: the stages, the passes, the ring and the
writer are methods on `array`s and classes, each proved against a specification, and lemmas about the specifications state
the results.

The main results, in the order a reader may want them:

- `Application.ReportIsRight`: from the file tree to the bytes, whether hard links are matched or collapsed. When nothing
  failed and the digest tells the contents apart, the groups a JSON reader recovers from the output are right about all
  files found: grouped files are equal, equal files are grouped, through a link of each when links are collapsed, no
  content is reported twice, and no group lists a file more often than it should. `CleanRun.ScanObliged` derives the
  hypotheses from the world outside: where every file opens and reads, the kernel answers what it is asked, and both passes
  are dispatched in full, the run is never undefined and what it says is right.
- `Discovery.Expand` and `Discovery.ExploredAll` say which directories those files are from: whatever errors were met,
  exactly the readable ones reachable from the inputs, unless a path is too long, and so in any walk without an error. The
  error count is exact: one for each fault. `Discovery.ErrorFreeIff` says when it is zero.
- `Guarantees.GroupsAreContentClasses`, `Independence.OrderIndependentMatched`, `Independence.OrderIndependentCollapsed`.
- `RingSlots.AnyOrder`, `RingSlots.ChainOutcome`, `RingConsume.ConsumeBatch`: the ring, for every order of completions.
  `RingKernel.FairFinishes`: a kernel that completes what it is asked to is waited for to the end.
- `Schedules.EveryScheduleHashes`, `Schedules.PassesAgreeIff`, `Schedules.PoolLeavesLoopArray`: every schedule on any number
  of workers, each with a ring that carries its state from batch to batch, hashes exactly the candidates of the batches that
  were not skipped, or drives a ring into undefined behaviour, which takes a ring with answers outstanding; on a stable file
  system, as long as no batch was read on such a ring, two passes leave the same array if and only if they report the same
  errors. `Pipeline.GroupAfterPool` carries the pool's schedules to the run that `Application.ReportIsRight` speaks of.
- `JsonReport.ReportRecovered`: the JSON round trip, for all sizes and all byte paths. `Utf8.ReportUtf8Iff`: when the
  result may be exchanged as JSON.

## What is assumed

- The sorting library (`bc_core_sort_with_compare`) is represented by a method whose contract promises a sorted
  permutation and nothing more: no proof depends on the order of ties. `bc_core_copy`, called at
  `src/grouping/bc_duplicate_grouping_by_size.c:67` with ranges that may overlap, is an ascending element copy.
- Hash functions are arbitrary functions of the byte sequence, given as parameters; streaming updates concatenate. Only
  where a lemma says so is a digest assumed to tell the contents at hand apart.
- The kernel is an adversary given as a script: it chooses the results, the data and the order of completions, and every
  read result of the synchronous reader. It never completes a request that is not in flight (such script events are passed
  over), a successful read delivers as many bytes as it reports, and the data of a read is in the slot buffer when its
  completion is delivered. A script that runs out is a failing wait for the ring and end of file for the reader. A
  successful submission takes everything prepared.
- The pool of workers appears in two ways: as a state machine over single steps in `Schedules`, and in `FullPass.HashOnPool`
  as the list of iterations in the order in which they take effect, each with its worker. An iteration that does nothing,
  after the stop signal or because its worker slot could not be set up, is a skipped batch.
- The ring has room for five entries per slot, as configured at `src/worker/bc_duplicate_worker_batch_uring.c:15`.
- The hashing passes may meet any file system. Statements about contents say so: every reading serves the same content.
  The walk is over a file system at rest, given as a map from directory to listing, with and without following links; a
  pseudo file system is a property of the directory. `bc_io_file_path_join` inserts one slash unless the directory ends
  in one.
- `fnmatch` is an arbitrary predicate. The hexadecimal writer of the library writes lower-case digits; the decimal writer
  writes no leading zeros.
- Sizes and counts are unbounded, except where wrap-around can show in the output: the wasted bytes are a 64-bit count.

## What the code does not do

Properties that do not hold are stated with the exact condition under which they do:

- Grouping never looks at the error fields or at whether a hash was computed, so files that were not read, because
  reading failed or because the pass was stopped, can be reported as duplicates: `Guarantees.UnreadableFilesShareKey` is
  such a pair, `Guarantees.VerifiedIffNoSharedFailure` the condition, for every run.
- A chunk that gives up leaves requests in flight, and their answers can make a later chunk accept the bytes of another
  file. `RingStale.TwoBatches` is such a run; `RingStale.StaleAnswersFeedWrongBytes` says it of any chunk. Exactly when a
  chunk can meet such answers is `RingStale.DriverCleanIff`: when anything is outstanding as it starts, it has a ring item
  and its chains fit. Chunks that do not give up hand on an empty ring if and only if they were given one
  (`RingConsume.OutstandingConserved`). A chunk that gave up is claimed only its own fallback.
- The synchronous reader takes any short read for the end of the file: `StreamReader.EarlyShortReadTruncates`; the
  condition is in `StreamReader.SyncReadsWhole`.
- A failed read of the last block is not reported and leaves the hash of the first block alone: `FastPass.FastHashContent`
  is the condition, `FastPass.TailFailureChangesHash` such a file. Two files of equal content that were read in full share a
  group if and only if their stored fast hashes agree all the same: `Guarantees.EqualFilesShareIff`.
- Hard links are collapsed inside one size run, so an inode recorded with two sizes survives twice:
  `Independence.InodeKeptOnceIff`, with two such entries in `Independence.GrowingFileKeptTwice`.
- With several inputs and the one-file-system option the device is that of the first directory input:
  `Discovery.OtherDevicesAreShallow`.
- The report escapes control bytes, quotation marks and backslashes but passes bytes from 0x80 on through, so it is UTF-8,
  as section 8.1 of RFC 8259 asks of a JSON text, if and only if all its paths are: `Utf8.ReportUtf8Iff`, with a failing
  report in `Utf8.ReportNotUtf8`. The reader here works on bytes.

## Model

| member | source | states |
|---|---|---|
| GroupingBySize.SizeDevInoOrders | src/grouping/bc_duplicate_grouping_by_size.c:8-20 | the comparator is a strict weak order whose ties are exactly the entries equal in size, device and inode |
| GroupingBySize.CollapseStep | src/grouping/bc_duplicate_grouping_by_size.c:29-39 | one read of the collapsing loop keeps the written part equal to the deduplication of what was read, and the unread part untouched |
| GroupingBySize.CollapseHardlinksInRun | src/grouping/bc_duplicate_grouping_by_size.c:22-41 | the front of the run becomes the run without consecutive links; nothing outside the run changes; the count is what was dropped |
| GroupingBySize.MoveRun | src/grouping/bc_duplicate_grouping_by_size.c:66-73 | a run moved down over a possibly overlapping range and collapsed there is the deduplication of the run as it was; the prefix before it and everything behind it are unchanged |
| GroupingBySize.CompactStep | src/grouping/bc_duplicate_grouping_by_size.c:61-73 | a compacted run extends the deduplicated prefix, and runs not yet reached are still the original ones |
| GroupingBySize.CollapseHardlinks | src/grouping/bc_duplicate_grouping_by_size.c:58-75 | the whole in-place loop leaves the deduplication of the sorted array as its prefix; kept plus collapsed is the number of entries |
| GroupingBySize.DedupConcat | src/grouping/bc_duplicate_grouping_by_size.c:61-73 | deduplicating run by run is deduplicating the whole, when no link crosses the boundary |
| GroupingBySize.DedupSurvivors | src/grouping/bc_duplicate_grouping_by_size.c:22-41 | of a sorted array the survivors are strictly sorted, are input entries, and hold every size, device and inode key of the input exactly once |
| GroupingBySize.CutBySize | src/grouping/bc_duplicate_grouping_by_size.c:84-113 | the windows are exactly the size classes with two members or more, each once, in order; the candidate count is their total |
| GroupingBySize.GroupBySize | src/grouping/bc_duplicate_grouping_by_size.c:43-118 | the whole stage: a permutation when links are matched, one entry per file otherwise, then the size classes of the kept prefix |
| GroupingByHash.FastHashOrders | src/grouping/bc_duplicate_grouping_by_fast_hash.c:8-14 | the comparator is a strict weak order whose ties are equal fast hashes |
| GroupingByHash.BytesLessTransitive | src/grouping/bc_duplicate_grouping_by_full_hash.c:13-21 | byte-wise comparison is transitive |
| GroupingByHash.BytesLessAsymmetric | src/grouping/bc_duplicate_grouping_by_full_hash.c:13-21 | byte-wise comparison is asymmetric, and two digests neither of which is less are equal |
| GroupingByHash.DigestOrders | src/grouping/bc_duplicate_grouping_by_full_hash.c:13-21 | comparing a digest prefix is a strict weak order whose ties are equal prefixes |
| GroupingByHash.ScanRuns | src/grouping/bc_duplicate_grouping_by_fast_hash.c:42-69 | the run scan of a sorted window finds exactly its key classes with two members or more, with the parent's size |
| GroupingByHash.WindowPermuted | src/grouping/bc_duplicate_grouping_by_fast_hash.c:40 | sorting one window disturbs neither the parent classes nor any entry outside the window |
| GroupingByHash.RefineWindow | src/grouping/bc_duplicate_grouping_by_fast_hash.c:35-70 | one parent handled: entries permuted only inside parents, runs nested in their parent |
| GroupingByHash.RefineGroups | src/grouping/bc_duplicate_grouping_by_full_hash.c:43-84 | all parents handled: the windows are the classes of parent key and own key together |
| GroupingByHash.GroupByFastHash | src/grouping/bc_duplicate_grouping_by_fast_hash.c:16-75 | second stage: exactly the classes under size and fast hash, nested in the size groups and inheriting their size |
| GroupingByHash.GroupByFullHash | src/grouping/bc_duplicate_grouping_by_full_hash.c:23-89 | third stage: exactly the classes under size, fast hash and digest prefix, nested in the fast-hash groups |
| KeyClasses.CloseRun | src/grouping/bc_duplicate_grouping_by_full_hash.c:50-80 | closing a run keeps the windows exactly the classes of what was scanned |
| KeyClasses.JoinPart | src/grouping/bc_duplicate_grouping_by_full_hash.c:43-84 | the classes inside one parent join those before it into classes of the combined key |
| KeyClasses.SkipGap | src/grouping/bc_duplicate_grouping_by_full_hash.c:43-84 | between parents there is nothing to report under the finer key |
| StreamReader.ConsumeFile | src/worker/bc_duplicate_worker_reader.c:31-71 | the read loop is the recursive reading of the kernel's answers; it succeeds exactly with errno zero |
| StreamReader.StreamFeeds | src/worker/bc_duplicate_worker_reader.c:47-70 | whatever the kernel does the consumer is fed a prefix of the file, and after success the whole file exactly when no read was cut short |
| StreamReader.SyncReadsWhole | src/worker/bc_duplicate_worker_reader.c:31-71 | a successful reading of a stable file feeds all of it if and only if no read was cut short |
| StreamReader.StreamSucceeds | src/worker/bc_duplicate_worker_reader.c:50-55 | any number of interrupted reads is survived |
| StreamReader.EarlyShortReadTruncates | src/worker/bc_duplicate_worker_reader.c:61-66 | a concrete file that is reported as read with seven of ten bytes missing |
| RingSlots.EncodeDecode | src/worker/bc_duplicate_worker_batch_uring.c:61-74 | user data decodes to the slot and operation it was made from, for every 32-bit slot and 8-bit operation |
| RingSlots.AnyOrder | src/worker/bc_duplicate_worker_batch_uring.c:111-178 | after completions in any order the errno is zero exactly while each was fine, and the consumer was called at most once, with a full read of the slot |
| RingSlots.ChainOutcome | src/worker/bc_duplicate_worker_batch_uring.c:111-178 | a complete chain in any order is resolved, and succeeds if and only if open succeeded, the read gave the whole size before the probe, the probe found the end and the consumer accepted |
| RingSlots.ResizeDetected | src/worker/bc_duplicate_worker_batch_uring.c:92-98 | success proves at least the recorded size at the read and at most that size at the probe, whatever the file did in between |
| RingLog.RingItemsExact | src/worker/bc_duplicate_worker_batch_uring.c:187-200 | the items given slots are exactly the fitting ones of the chunk, in order |
| RingLog.SlotProjection | src/worker/bc_duplicate_worker_batch_uring.c:212-225 | under any interleaving each slot sees at most one completion per operation, all of its own requests |
| RingLog.EveryRequestAnswered | src/worker/bc_duplicate_worker_batch_uring.c:212-225 | after as many completions as requests every request has been answered |
| RingLog.CompleteLog | src/worker/bc_duplicate_worker_batch_uring.c:212-225 | after them every slot has seen all four operations |
| RingLog.SlotOutcome | src/worker/bc_duplicate_worker_batch_uring.c:111-228 | whatever answers arrived, a ring item was fed at most once from its own full read and failed exactly when one of its own completions was not fine; after all of them it is resolved |
| RingLog.SlotFed | src/worker/bc_duplicate_worker_batch_uring.c:135-174 | the consumer saw the item's own full read, and success took a probe that found the end of the file |
| RingKernel.CourseStep | src/worker/bc_duplicate_worker_batch_uring.c:213-225 | one turn of the wait loop: interrupted waits repeat, other failures end the chunk, a completion is handled once |
| RingKernel.FairFinishes | src/worker/bc_duplicate_worker_batch_uring.c:211-227 | when the kernel completes every request and fails no wait but by interruption, the loop takes everything, in any order |
| RingBatch.Ring.SubmitSlot | src/worker/bc_duplicate_worker_batch_uring.c:76-104 | it succeeds exactly when four entries are left and then prepares the open, read, probe, close chain of the item |
| RingBatch.HandleCqe | src/worker/bc_duplicate_worker_batch_uring.c:111-178 | one completion changes exactly one item, one consumer and one slot counter, as the slot's transition says |
| RingBatch.PrepareChunk | src/worker/bc_duplicate_worker_batch_uring.c:180-200 | slots are assigned to the fitting items in order; it succeeds if and only if four entries per slot are left in the ring |
| RingBatch.LaunchChunk | src/worker/bc_duplicate_worker_batch_uring.c:180-209 | it succeeds if and only if the chains fit and the kernel takes them, and then what was outstanding plus the chunk's requests is outstanding |
| RingBatch.WaitForCompletions | src/worker/bc_duplicate_worker_batch_uring.c:211-227 | how the loop ends and what it handled are determined by the waits; the items are what the handled completions make of them |
| RingBatch.QuiescentChunk | src/worker/bc_duplicate_worker_batch_uring.c:180-228 | started with nothing outstanding a chunk sees only answers to its own requests and never an unassigned slot |
| RingBatch.DriveChunk | src/worker/bc_duplicate_worker_batch_uring.c:180-228 | a whole chunk against any kernel: the ending and the handled completions are determined, the effect is that of those completions, and they are what is no longer outstanding |
| RingBatch.FairChunk | src/worker/bc_duplicate_worker_batch_uring.c:15 | started on an empty ring under a fair kernel a chunk never runs out of entries and takes all its completions |
| RingTurns.HandledInTurn | src/worker/bc_duplicate_worker_batch_uring.c:211-227 | when linked requests are answered in turn, the wait loop handles no probe before the read behind it, whatever else arrives and is passed over |
| RingTurns.OnSlotInTurn | src/worker/bc_duplicate_worker_batch_uring.c:88-101 | the turns survive the projection of an interleaved log to one slot |
| RingConsume.FallbackSync | src/worker/bc_duplicate_worker_batch_uring.c:230-240 | the item ends as the synchronous reading of its file does, consumer included |
| RingConsume.SettleChunk | src/worker/bc_duplicate_worker_batch_uring.c:254-273 | after either settling loop exactly the items that needed it were read synchronously, the others are unchanged |
| RingConsume.ProcessChunk | src/worker/bc_duplicate_worker_batch_uring.c:247-276 | a chunk is driven to an intermediate scene and settled from there, and both moves are determined by the kernel's script and the synchronous readings |
| RingConsume.ChunkLeaves | src/worker/bc_duplicate_worker_batch_uring.c:254-273 | such a chunk leaves every item resolved and all others alone; with nothing outstanding before, each item was fed along one path only |
| RingConsume.ChunkQuiet | src/worker/bc_duplicate_worker_batch_uring.c:202-227 | a chunk that takes all its completions leaves the ring quiet if and only if it found it quiet; on a quiet ring nothing undefined happens, and a fair kernel makes it take them all |
| RingConsume.ConsumeBatch | src/worker/bc_duplicate_worker_batch_uring.c:242-278 | the whole batch is its chunks, one after another; every item resolved, none fed by both paths up to the first chunk that gave up, and no chunk gives up under a fair kernel |
| RingConsume.OutstandingConserved | src/worker/bc_duplicate_worker_batch_uring.c:211-227 | a chunk that takes all completions leaves as many requests outstanding as it found, none if and only if there were none |
| RingConsume.ReadPathsAgree | src/worker/bc_duplicate_worker_batch_uring.c:230-278 | on a stable file a successful item's consumer holds the file's content, by whichever path it was read |
| RingConsume.ServedSucceeds | src/worker/bc_duplicate_worker_batch_uring.c:111-178 | when no operation fails and linked ones are answered in turn, every item whose file has its recorded size succeeds, through the ring or synchronously |
| RingStale.WaitsCleanIff | src/worker/bc_duplicate_worker_batch_uring.c:211-227 | a wait loop stays within its slots and handles only answers to its own requests, whatever the kernel does, if and only if nothing was outstanding before the chunk |
| RingStale.DriverCleanIff | src/worker/bc_duplicate_worker_batch_uring.c:180-228 | the same of the whole driver: if and only if nothing is outstanding, no item goes through the ring, or the chains do not fit |
| RingStale.ArrivalsHandled | src/worker/bc_duplicate_worker_batch_uring.c:213-225 | the wait loop handles any plausible answers to outstanding requests, in the order in which they come |
| RingStale.StaleAnswersFeedWrongBytes | src/worker/bc_duplicate_worker_batch_uring.c:111-228 | with an earlier chain of a slot outstanding there is a kernel under which the driver handles just its answers, and the new item in the slot succeeds with the earlier file's bytes |
| RingStale.TwoBatches | src/worker/bc_duplicate_worker_batch_uring.c:207-221 | a run of two batches on one ring: the first gives up on a failing wait, the second reports its item read, with the first item's bytes |
| Candidates.FlattenMember | src/worker/bc_duplicate_worker_full.c:264-270 | the flattened indices are exactly the positions covered by a window, as many as the windows count |
| Candidates.FlattenDistinct | src/worker/bc_duplicate_worker_full.c:264-270 | no position is listed twice |
| Candidates.SortIndicesBySizeDescending | src/worker/bc_duplicate_worker_sort.c:13-30 | the indices are permuted so that the files they point at come largest first; the entries stay |
| Candidates.BuildCandidates | src/worker/bc_duplicate_worker_full.c:252-272 | the candidate array is a duplicate-free permutation of the covered positions, largest file first |
| Candidates.BatchesPartition | src/worker/bc_duplicate_worker_full.c:216-222 | every candidate position lies in exactly one batch, and no batch is empty or leaves the array |
| FastPass.FastIteration | src/worker/bc_duplicate_worker_fast.c:35-82 | an iteration replaces its own entry's fast fields by what the opens and reads give, and nothing else |
| FastPass.XorBitsNeutral | src/worker/bc_duplicate_worker_fast.c:73 | the exclusive or leaves a hash unchanged if and only if the other hash is zero |
| FastPass.FastHashContent | src/worker/bc_duplicate_worker_fast.c:55-81 | a fast hash without error is the content's, except exactly when the tail read failed unreported and the tail's hash is not zero |
| FastPass.TailFailureChangesHash | src/worker/bc_duplicate_worker_fast.c:67-76 | a concrete file of two blocks whose failed tail read leaves a hash other than its content's, without error |
| FastPass.RunFastPass | src/worker/bc_duplicate_worker_fast.c:84-130 | in whatever order the iterations run, exactly the entries they name are hashed |
| FastPass.FastSchedulesAgree | src/worker/bc_duplicate_worker_fast.c:120-121 | two orders of the same iterations leave the same entries |
| FullPass.ResetSlot | src/worker/bc_duplicate_worker_full.c:172-182 | a reused worker slot forgets everything about its previous batch at the offsets it uses |
| FullPass.WriteBack | src/worker/bc_duplicate_worker_full.c:186-199 | each entry of the batch gets its own item's outcome; the candidates hashed so far grow by the batch |
| FullPass.ProcessBatch | src/worker/bc_duplicate_worker_full.c:169-200 | reset, read and write back hash exactly the batch, whatever the slot held before |
| FullPass.Iterate | src/worker/bc_duplicate_worker_full.c:202-223 | an iteration on one worker hashes exactly its batch, or nothing when the worker slot cannot be set up, and leaves the other workers' rings and slots alone |
| FullPass.HashCandidates | src/worker/bc_duplicate_worker_full.c:299-306 | the single-threaded loop hashes exactly the candidates of the batches before the stop whose worker slot could be set up, each once |
| FullPass.HashOnPool | src/worker/bc_duplicate_worker_full.c:307 | the pool hashes exactly the candidates of the batches it runs, on whatever workers and in whatever order, and a ring that gave up is not trusted afterwards |
| FullPass.RunFullPass | src/worker/bc_duplicate_worker_full.c:245-317 | candidates built, and hashed by the loop or by the pool; everything else in the array is unchanged |
| FullPass.HashedContent | src/worker/bc_duplicate_worker_full.c:192-198 | on a stable file system a hashed entry without error carries the digest of its content, one with an error keeps the digest it had |
| FullPass.CompleteIff | src/worker/bc_duplicate_worker_full.c:297-308 | a dispatch, loop or pool, gets to every candidate if and only if it runs every batch |
| FullPass.HashedServed | src/worker/bc_duplicate_worker_full.c:192-198 | where nothing outside the program fails a candidate of the recorded size is hashed without error |
| Schedules.StepKeepsInvariant | src/worker/bc_duplicate_worker_full.c:202-223 | every step of every worker keeps the invariant: batches held by one worker each, slots reset before use, entries written only by their batch |
| Schedules.RaceFree | src/worker/bc_duplicate_worker_full.c:169-223 | in no reachable state do two workers have the same entry in hand |
| Schedules.RunKeepsInvariant | src/worker/bc_duplicate_worker_full.c:307 | the invariant holds in every state of every run |
| Schedules.NeverStuck | src/worker/bc_duplicate_worker_full.c:307 | while the pass is unfinished and no ring was driven into undefined behaviour some worker can move, and one worker is enough |
| Schedules.StepDecreases | src/worker/bc_duplicate_worker_full.c:307 | every step brings the end of the pass closer |
| Schedules.EveryScheduleHashes | src/worker/bc_duplicate_worker_full.c:297-308 | every maximal run, on any positive number of workers, is finite; unless a ring with answers outstanding was driven into undefined behaviour it ends with exactly the candidates of the batches not skipped hashed, each along one path unless its ring had answers outstanding |
| Schedules.FairRunsStayClean | src/worker/bc_duplicate_worker_full.c:297-308 | under a fair kernel no schedule reads a batch on a ring with answers outstanding, and none is undefined |
| Schedules.PassesAgreeIff | src/worker/bc_duplicate_worker_full.c:297-308 | on a stable file system two passes over the same candidates, loop or pool, leave the same array if and only if they report the same errors |
| Schedules.PoolLeavesLoopArray | src/worker/bc_duplicate_worker_full.c:299-308 | a run of the pool that is not undefined, skips nothing, meets no outstanding answers and no error leaves exactly the array of an error-free forced loop |
| Statistics.CountDuplicates | src/bc_duplicate_main.c:311-317 | the totals loop, with the wasted bytes as a 64-bit count |
| Statistics.WasteConserved | src/bc_duplicate_main.c:311-317 | wasted bytes are all surviving bytes minus one representative of every key class, singletons included; grouped files are duplicates plus groups |
| Statistics.NestedCount | src/bc_duplicate_main.c:256-259 | nested windows hold no more files than their parents |
| Pipeline.RunFastStage | src/bc_duplicate_main.c:219-239 | fast pass and fast grouping together leave exactly the classes under size and fast hash |
| Pipeline.SkippedFullStage | src/bc_duplicate_main.c:256 | skipping the full stage without fast groups gives what running it would have given |
| Pipeline.RunFullStage | src/bc_duplicate_main.c:256-309 | full pass and digest grouping leave exactly the classes under size, fast hash and digest prefix |
| Pipeline.PoolHashes | src/worker/bc_duplicate_worker_full.c:307 | every maximal schedule of the pool that is not undefined leaves the array hashed as the full stage asks, completely unless a batch was skipped |
| Pipeline.GroupAfterPool | src/bc_duplicate_main.c:256-309 | digest grouping on what such a schedule left completes the full stage as the pipeline states it: windows that are exactly the classes of the stored key |
| Pipeline.FairPoolIsTrusted | src/worker/bc_duplicate_worker_full.c:307 | under a fair kernel no schedule of the pool is undefined, and all batches are read on empty rings |
| Pipeline.Run | src/bc_duplicate_main.c:165-331 | the stages in sequence on one array, the full pass by the loop or the pool, with the totals of the groups reported; under a fair kernel nothing gives up |
| Content.FastPassTruth | src/worker/bc_duplicate_worker_fast.c:35-82 | after the fast pass every covered entry has a fast hash that tells the truth about its content |
| Content.FullPassTruth | src/worker/bc_duplicate_worker_full.c:169-200 | after the full pass every covered entry has a digest that tells the truth about its content |
| Content.FinalFacts | src/bc_duplicate_main.c:178-309 | through all sorting, the kept entries of the final array tell the truth and those that matter are hashed |
| Content.UnverifiedHasNoDigest | src/worker/bc_duplicate_worker_full.c:192-198 | in any run, complete or stopped, an entry that was not read in full has no digest at the end |
| Content.DigestsTrue | src/bc_duplicate_main.c:178-309 | in a complete or stopped run on stable files every digest is that of the content, or there is none |
| Guarantees.SizeClassesStay | src/bc_duplicate_main.c:178-309 | the first stage's windows are still the size classes of the final array |
| Guarantees.EqualContentsShareAGroup | src/bc_duplicate_main.c:178-309 | files hashed without error and equal in content always share a reported group, whatever the hash functions |
| Guarantees.EqualFilesShareIff | src/grouping/bc_duplicate_grouping_by_fast_hash.c:35-70 | in any run on stable files, complete or stopped, two files of equal content that were read in full share a group if and only if their stored fast hashes agree |
| Guarantees.GroupsAreContentClasses | src/bc_duplicate_main.c:178-309 | without errors and with a digest that separates the contents the groups are exactly the content classes of two or more |
| Guarantees.VerifiedMembersAgree | src/bc_duplicate_main.c:178-309 | two verified members of a group have equal content even when other files failed or the run was stopped |
| Guarantees.VerifiedIffNoSharedFailure | src/grouping/bc_duplicate_grouping_by_full_hash.c:43-84 | in any run, complete or stopped, every reported member was read in full if and only if no file that was not meets another one of its size and stored fast hash that was not either or has an all-zero digest prefix |
| Guarantees.UnreadableFilesShareKey | src/worker/bc_duplicate_worker_full.c:193-196 | two unreadable files of one size end with the same stored key |
| Guarantees.IdentitiesConserved | src/bc_duplicate_main.c:178-309 | no kept file is lost, doubled or changed between the stages |
| Guarantees.CountsShrink | src/bc_duplicate_main.c:256-259 | grouped files, fast candidates, size candidates and kept entries form a descending chain |
| Guarantees.TotalsConserved | src/bc_duplicate_main.c:311-331 | the reported totals are those of the key classes of the kept entries |
| Independence.SameFamily | src/grouping/bc_duplicate_grouping_by_full_hash.c:23-89 | two arrays with the same entries up to order, cut into the classes of one key, have the same family of groups |
| Independence.GroupsAreIdealClasses | src/bc_duplicate_main.c:178-309 | without errors the groups are the classes of a key of size and content alone, whatever the hash functions |
| Independence.OrderIndependentMatched | src/grouping/bc_duplicate_grouping_by_size.c:43-118 | with hard links matched, two runs over the same files in any orders report the same family of groups |
| Independence.OrderIndependentCollapsed | src/grouping/bc_duplicate_grouping_by_size.c:58-75 | with hard links collapsed, the families agree as families of size, device and inode |
| Independence.InodeKeptOnceIff | src/grouping/bc_duplicate_grouping_by_size.c:22-41 | an inode survives collapsing more than once if and only if it was recorded with more than one size |
| Independence.GrowingFileKeptTwice | src/grouping/bc_duplicate_grouping_by_size.c:22-41 | an inode recorded with two sizes, as sorted, survives collapsing twice |
| Walk.Walker.AppendEntry | src/discovery/bc_duplicate_discovery_walk.c:45-73 | a file of at least the minimum size is recorded, a smaller one is not |
| Walk.Walker.DescendChild | src/discovery/bc_duplicate_discovery_walk.c:78-119 | the directory an entry leads to ends up visited, and is entered at most once |
| Walk.Walker.NoteEntry | src/discovery/bc_duplicate_discovery_walk.c:121-163 | an entry contributes exactly its file, if it is one to record, and exactly one error, if it is one to report; it is passed on exactly when it leads to a directory |
| Walk.Walker.HandleEntry | src/discovery/bc_duplicate_discovery_walk.c:121-163 | an entry handled: its file and its error are accounted for, and the directory it leads to, under a path that is not too long, is visited |
| Walk.Walker.WalkDirectory | src/discovery/bc_duplicate_discovery_walk.c:165-201 | reading a directory terminates on cyclic graphs, reads no directory twice, and accounts for every file and every error of every directory it reads |
| Walk.BlamelessTrans | src/discovery/bc_duplicate_discovery_walk.c:182-197 | causes of errors and stops carry through: an entry or listing that fails, a directory that cannot be opened, a signal that was set |
| Walk.StretchTrans | src/discovery/bc_duplicate_discovery_walk.c:182-197 | stretches of the walk compose: at most once, complete whatever errors were recorded, every file accounted for and every error counted |
| FileTree.ClosedHoldsTrek | src/discovery/bc_duplicate_discovery_walk.c:78-201 | a set closed under the edges holds everything reachable |
| FileTree.FaultlessVisits | src/discovery/bc_duplicate_discovery_walk.c:133-142 | the faults of the directories read add up to none exactly when no entry fails, no path is too long and every listing ends well |
| Discovery.NoteInput | src/discovery/bc_duplicate_discovery_walk.c:203-260 | an input that is no directory to be walked contributes exactly its file or exactly its error, if any |
| Discovery.ProcessInputPath | src/discovery/bc_duplicate_discovery_walk.c:203-260 | one input keeps the account of everything explored so far, across all inputs |
| Discovery.ReachableIsRead | src/discovery/bc_duplicate_discovery_walk.c:78-201 | without a stop, and when no path is too long, every directory reachable from the inputs is met, and read if it is readable, whatever errors were recorded |
| Discovery.ExploredFully | src/discovery/bc_duplicate_discovery_walk.c:78-201 | without a stop every readable directory that an entry of a directory read leads to, under a path that fits, is read |
| Discovery.ExploredAll | src/discovery/bc_duplicate_discovery_walk.c:296-333 | without a stop the directories read are exactly the reachable readable ones if no error was recorded, or if only no path is too long; each is read once and under a path that names it; files found and errors recorded are exactly those of the inputs and directories |
| Discovery.ExploredCount | src/discovery/bc_duplicate_discovery_walk.c:75-264 | without a stop the error count is the number of faulty inputs, failing entries, listings that end in error and directories that cannot be opened, each counted once |
| Discovery.ErrorFreeIff | src/discovery/bc_duplicate_discovery_walk.c:75-264 | without a stop no error is recorded if and only if no input is faulty, every directory read is faultless and every reachable directory opens or is on a pseudo file system |
| Discovery.ExploredPart | src/discovery/bc_duplicate_discovery_walk.c:319-321 | a stopped walk has read only directories a full one may read |
| Discovery.Expand | src/discovery/bc_duplicate_discovery_walk.c:296-333 | the loop over the inputs establishes all that: every fault met is recorded, no error is recorded without a fault, and no stop is seen without a signal |
| Discovery.OtherDevicesAreShallow | src/discovery/bc_duplicate_discovery_walk.c:88-90 | confined to one file system, a directory on another device than the first directory input is entered exactly when it is an input itself |
| Discovery.FoundNulFree | src/discovery/bc_duplicate_discovery_walk.c:131-134 | paths built by joining names are C strings when the names are |
| Filter.JoinUndoesSplit | src/filter/bc_duplicate_filter.c:39-61 | joining the lines of any list with newlines gives the list back |
| Filter.SplitUndoesJoin | src/filter/bc_duplicate_filter.c:39-61 | splitting any lines joined with newlines gives the lines back |
| Filter.OffsetsShowLines | src/filter/bc_duplicate_filter.c:52-61 | once newlines are terminators, the C strings at the stored offsets are the lines |
| Filter.CountAndSplit | src/filter/bc_duplicate_filter.c:21-67 | the two passes in place: the second writes exactly the offsets the first counted, and the patterns read off the buffer are the lines of the list |
| Filter.NameFilter.MatchesAny | src/filter/bc_duplicate_filter.c:117-125 | true exactly when some line of the list matches |
| Filter.NameFilter.AcceptsFile | src/filter/bc_duplicate_filter.c:127-139 | true exactly when no exclude line matches and, with an include list, some include line does |
| Filter.NameFilter.AcceptsDirectory | src/filter/bc_duplicate_filter.c:141-150 | true exactly when no exclude line matches |
| Filter.FilterRestrictsWalk | src/discovery/bc_duplicate_discovery_walk.c:145-156 | of the files and directories of an unfiltered walk a filter leaves exactly those it accepts, and it hides no error |
| JsonText.EscapedIsChars | src/output/bc_duplicate_output_json.c:12-54 | an escaped path is a string body by section 7 of RFC 8259: no control byte and no quotation mark or backslash that is not part of an escape |
| JsonText.CharsReadBack | src/output/bc_duplicate_output_json.c:12-54 | a reader of string bodies recovers the path, for every byte sequence, and stops at the closing mark |
| JsonText.NumberReadsBack | src/output/bc_duplicate_output_json.c:69-75 | decimal numbers are read back, with no leading zero |
| JsonText.ReadsBack | src/output/bc_duplicate_output_json.c:104-134 | the reader recovers every tree of objects, arrays, strings and numbers from its text, at any nesting |
| JsonText.PrintInjective | src/output/bc_duplicate_output_json.c:104-134 | two trees with the same text are equal |
| JsonReport.Writer.WriteEscaped | src/output/bc_duplicate_output_json.c:12-54 | the cursor loop appends the escaped C string between quotation marks |
| JsonReport.Writer.WriteStatistics | src/output/bc_duplicate_output_json.c:77-102 | the statistics object, all eleven members in order |
| JsonReport.Writer.WriteGroup | src/output/bc_duplicate_output_json.c:114-131 | a group object with its size and the paths of its window, in order |
| JsonReport.Writer.WriteReport | src/output/bc_duplicate_output_json.c:104-134 | the bytes appended are the text of the document tree and a newline |
| JsonReport.ReportRecovered | src/output/bc_duplicate_output_json.c:104-134 | a reader recovers exactly the list of sizes and paths |
| JsonReport.ReportInjective | src/output/bc_duplicate_output_json.c:104-134 | the text determines the algorithm, every statistic and every group |
| Utf8.AsciiSplit | src/output/bc_duplicate_output_json.c:12-54 | an ASCII byte splits a byte sequence into two that are UTF-8, by section 4 of RFC 3629, if and only if the whole is |
| Utf8.EscapedUtf8 | src/output/bc_duplicate_output_json.c:12-54 | an escaped path is UTF-8 if and only if the path is |
| Utf8.PrintUtf8 | src/output/bc_duplicate_output_json.c:104-134 | a printed tree is UTF-8 if and only if all its strings are |
| Utf8.ReportUtf8Iff | src/output/bc_duplicate_output_json.c:104-134 | the report is UTF-8 if and only if every path in it is |
| Utf8.ReportNotUtf8 | src/output/bc_duplicate_output_json.c:48-52 | a report with the one-byte path 0xFF is recovered by the reader but is not UTF-8 |
| Application.Scan | src/bc_duplicate_main.c:89-420 | a run from file tree to text, hashing on one worker or on a pool: what it prints reads back as the groups of its final array |
| Application.KeptRepresents | src/grouping/bc_duplicate_grouping_by_size.c:56-75 | the kept entries are the files found, or with collapsed links one link of every file found, each file once |
| Application.ReportIsRight | src/bc_duplicate_main.c:89-420 | with hard links matched or collapsed, the recovered groups are right about the files found: grouped is equal, equal is grouped, no content twice, no file too often |
| Application.SilenceIsRight | src/bc_duplicate_main.c:210-217 | a run without output, hard links matched or collapsed, found no two files of equal content |
| CleanRun.NoErrorsArise | src/bc_duplicate_main.c:219-309 | where every file opens and reads and the ring's operations do not fail, no kept entry ends with an error |
| CleanRun.RunsToItsEnd | src/bc_duplicate_main.c:219-309 | with complete schedules both passes get to all their candidates |
| CleanRun.ScanObliged | src/bc_duplicate_main.c:89-420 | where nothing outside the program fails the run is not undefined, and what it prints, or its silence, is right about the files found |

## Left out

- Allocation failures, and with them every early return for lack of memory, except a worker slot that cannot be set up, whose batches are skipped.
- Application.Scan: discovers by the sequential walk. With two workers or more the program calls `bc_io_walk_parallel`, library code that is not part of this model, and merges its slots by concatenation; `Application.Process` takes the files in any order, and `Independence` shows that the order does not matter.
- Glob expansion of input paths: the inputs are the expanded ones.
- Throughput measurement, its cache, the dispatch decision and the worker count: `Schedules.EveryScheduleHashes` and `FullPass.RunFullPass` cover whatever they decide.
- The simple and the summary output, the command line, logging, exit codes and opening the output file.
- Failing writes: each writer function gives up at the first one.
- A submission that the kernel takes only in part.
- Failures to initialise or finalise SHA-256: a consumer can only refuse a chunk.
- Freeing buffers, file descriptors and the ring.
- Which of several hard links survives collapsing: it depends on the order of ties in the sorting library.
