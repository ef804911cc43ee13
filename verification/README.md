# Office conversion: a Dafny model of the chunked PDF pipeline

The orchestrator (Go) turns a document into a PDF in page chunks. It plans the chunks, has worker
processes (C++) render them, halves chunks that ran out of memory, caches results, and merges them.
This project models the parts where an error would change the output, lose a request or block a
goroutine, and proves what they guarantee over every input, every interleaving or every run.

`dafny verify dfyconfig.toml` checks everything. One module a file:

| part | modules |
|---|---|
| planning | `Types`, `PageSplit`, `SeamGroups`, `Planner` |
| rendering, halving, merging | `PdfPages`, `RenderTree`, `RenderAll`, `Convert`, `PoolSucceeds` |
| the scratch files of one process a chunk | `RenderPaths`, `RenderRuns`, `NameClashes`, `FinishRuns`, `SinglePermit`, `WrongOutputs`, `OneShotFiles` |
| the fork pool's protocol | `PoolProtocol`, `ForkPool`, `ForkOnce`, `PoolDrains`, `PoolLoop`, `ReplyDemux`, `ForkProtocol`, `CallsServed`, `CallErrors` |
| lines and JSON on the pipes | `Decimals`, `Framing`, `CommandWire`, `ReplyWire`, `Wire`, `PipeContents` |
| the cache | `Cache`, `PoolWithCache`, `CachedRenders`, `CacheSources` |
| rate limit, recent list, CSV | `RateLimit`, `Recent`, `CsvInput` |
| shared helpers | `Basics` |

## How the parts fit

- **Pages.** `PdfPages.Document` deletes pages in place as the PDF worker does; `RenderTree` calls
  it for every render, and adds halving and the merge; `RenderAll` is the bounded gather.
  `Convert.PoolModeKeepsPages` puts the plan, the replan, the whole pool protocol, the gather, the
  sort and the merge together into one statement, `PoolWithCache.PoolModeWithCache` adds the cache.
  `PoolSucceeds` shows that what both ask for happens, on every document that is not empty and with
  any number of children.
- **Protocol.** `ForkPool` is the leader and its children as a step system, `ForkOnce` its
  at-most-once half, `ReplyDemux` the Go side (as a class, one method a critical section, and as a
  step system that the methods are steps of), `ForkProtocol` their product with the pipes.
  `PoolDrains` and `CallsServed` show that no reachable state of it is a dead end, `CallErrors` what
  a call's result says of its render.
  `PoolLoop` is the leader's loop as code, refined to the step system. `Wire` says which values
  survive the trip through lines and fragments, and `PipeContents` that those of a conversion do.
- **Files.** `RenderTree` identifies a chunk by its page interval. The scratch files are named by
  chunk index, and halving reuses index names. `RenderPaths` follows the files themselves;
  `NameClashes` and `SinglePermit` say when an intermediate file may be wrong, `WrongOutputs` when a
  finished output may be, and `OneShotFiles.ConversionRightIffFilesStayApart` is the statement
  about whole conversions with one process a chunk.
- **Cache.** `Cache` copies scratch files under temporary names, publishes and clears them, and
  takes a source's content as it is at the moment. What it says of hits holds while the sources can
  be trusted. `PoolWithCache` runs pool and cache side by side and shows that in pool mode they can at
  every step; `CacheSources` shows when they can with one process a chunk, and `CachedRenders`
  exactly when they cannot.

Arithmetic on sizes, times and tokens is over `real`. Assumed: clocks do not run backwards where a
statement says so, SHA-256 does not collide, temporary file names do not repeat, rendering a page
range gives the same pages every time, a page by itself always fits in memory where a statement
says `Recoverable`, only ranges that a worker can render are stored in the cache, each job
has a scratch directory of its own, and qpdf concatenates.

## Where the code does less than it says

Each of these is a lemma with a concrete input or run, or one half of an if-and-only-if.

- A chunk plan is documented as a complete cover (`internal/types/types.go:114`), and seams may have
  gaps between them (`aidlc-docs/construction/office-converter/functional-design/domain-entities.md:49`).
  On that domain a plan covers every page if and only if the seams are not used, because there are
  none or they group out of balance, or no group of seams ends at a gap:
  `Planner.PlanCoversIffNoGapBetweenGroups`. `Planner.GappySeamsLosePages` is an input that loses a
  page. With a page more allowed, its seams join across the gap into one chunk, which covers the page
  but is longer than the limit, since only seam pages are counted: `Planner.JoinedSeamsSwallowGap`.
  The shipped workers report no seams at all.
- With one process a chunk, halving reuses index names. A left half halved again makes its parent's
  merge write into one of its own inputs, which is refused, so such a job never finishes, although
  every page would fit: `OneShotFiles.FinishesIffRightOnly`, `WrongOutputs.HalvedLeftNeverFinishes`.
  Otherwise a right half halved again shares a name with the next chunk, and a conversion can
  succeed with the wrong pages: `NameClashes.DocumentSilentlyWrong` is a run. Finished outputs are
  always right if and only if that cannot happen or no job finishes:
  `WrongOutputs.OutputRightIffSeveralPermits`, and `WrongOutputs.OutputRightIffOnePermit` for a
  single worker. `NameClashes.FilesAreRightIffNamesStayApart` and
  `SinglePermit.FilesAreRightIffResultsStayApart` say the same of every intermediate file.
- A chunk's scratch file is copied into the cache after its render, by when another chunk may have
  written over it. The wrong pages then stay in the cache for later jobs: `CachedRenders.PoisonedEntry`
  is a run. It cannot happen exactly under the conditions of
  `CachedRenders.StoredRightIffNamesStayApart` and `CachedRenders.StoredRightIffOnePermit`; in pool
  mode it never happens (`PoolWithCache.RunIsTrusted`).
- A caller that cancels from outside can get a result without an error and without any path, for
  every number of chunks: `RenderAll.CancelledOutsideLosesSlots`. Nothing else
  leaves a slot empty: `RenderAll.EmptySlotMeansCancelledOutside`.
- A child that runs out of memory answers and exits. If its answer and its closed socket are not
  seen together, the next command is sent to nobody: `ForkProtocol.ChildOutOfMemoryLosesNextCommand`.
- The queue for busy workers announced at `worker_cpp/pool.cpp:442` is never used:
  `ForkProtocol.NothingIsQueued`.
- `escape_json` leaves control characters other than the newline as they are; the orchestrator drops
  such a reply as no JSON and its caller waits for the timeout: `ReplyWire.ReplyRoundTrip`.
- The key of a finished conversion leaves out the format: `Cache.HitsRightIffFormatImmaterial`.
- A rate-limited client that is forgotten starts with a full bucket
  (`RateLimit.ForgottenClientStartsAfresh`). Its decisions are those of a limiter without a bound, at
  whatever times, if and only if fewer than maxKeys others are always checked in between:
  `RateLimit.KeptInMindIffDecidedAlike`.
- Pages over a recent list that is not strictly descending in (time, id) skip records:
  `Recent.SeenWholeIffDescending`.

The worker looks for a key's name anywhere in a command line, so a path called like a key would be
taken for it (`CommandWire.PathNamedLikeAKey`). The paths the orchestrator builds never are:
`PipeContents.RequestIsSendable`.

## Model

| member | source | states |
|---|---|---|
| `PageSplit.PageRangeSplit` | internal/planner/planner.go:271-302 | the greedy loop builds the closed form: equal chunks of K = max(1, min(page limit, pages within the MB limit)) |
| `PageSplit.FitsUpToWidth` | internal/planner/planner.go:276-287 | a growing chunk respects both limits exactly up to K pages |
| `PageSplit.SplitIsMinimalCover` | internal/planner/planner.go:271-302 | the split is an ordered, numbered cover within the limits, and no cover within the limits has fewer chunks |
| `SeamGroups.GroupSeams` | internal/planner/planner.go:219-268 | the grouping loop with its pending fields computes the recursive grouping, with its summed estimate |
| `SeamGroups.ChunkMBIsDirectEstimate` | internal/planner/planner.go:211-216 | pro-rating the plan's estimate gives the chunk's own estimate, for every plan that covers the document |
| `SeamGroups.GroupPlanKeepsSeams` | internal/planner/planner.go:219-268 | tiling seams group into an ordered cover cut only at seams, each chunk one whole seam or within the limits |
| `SeamGroups.GroupsAreFull` | internal/planner/planner.go:219-268 | no group but the last could have taken in the seam behind it within both limits |
| `Planner.PlanIsExactCover` | internal/planner/planner.go:147-160 | the plan is an exact, ordered, numbered cover that either cuts at seams within 1.5 times both limits or obeys the limits, single pages excepted |
| `Planner.SeamsUsedIffBalanced` | internal/planner/planner.go:147-160 | tiling seams are used, and the chunks marked, if and only if every group of them is within 1.5 times both limits |
| `Planner.PlanEstimatesDocument` | internal/planner/planner.go:263-267 | the plan's summed estimate is the document's size times the format's factor, in MB |
| `Planner.PlanCoversIffNoGapBetweenGroups` | internal/planner/planner.go:147-160 | for all ordered seams, gaps allowed: the plan covers 1..N if and only if seams are not used, or they start at 1, end at N and no group of them ends at a gap |
| `Planner.GappySeamsLosePages` | internal/planner/planner.go:219-268 | an input whose group of seams ends at a gap: the page in the gap is in no chunk |
| `Planner.JoinedSeamsSwallowGap` | internal/planner/planner.go:232-244 | seams that join across a gap make one chunk that covers it and exceeds the page limit |
| `Planner.AdaptiveSizeFitsBudget` | internal/planner/planner.go:80-143 | an adaptive size above the floor fits a worker's render budget |
| `Planner.AdaptiveSizeIsLargest` | internal/planner/planner.go:80-143 | it is between floor and ceiling, and a size there is at most this one if and only if so many pages fit three quarters of the memory less the overhead, or 50 MB, and leave max(2, parallel) chunks |
| `Planner.AdaptiveSizesByFormat` | internal/planner/planner.go:25-58 | what the formats' factors, overheads and ceilings come to for a large and for a long document |
| `Planner.PlanKeepsWorkersBusy` | internal/planner/planner.go:80-143 | ten pages per wanted chunk and no seams give at least max(2, parallel) chunks, whatever the configured page limit |
| `Planner.SubdivideTiles` | internal/planner/planner.go:164-176 | two shorter chunks tile the halved one, the left one at most a page longer |
| `PdfPages.Document.DeleteAfter` | worker_cpp/formats/pdf.cpp:61-64 | deleting from the end backwards leaves the pages up to the range's end |
| `PdfPages.Document.DeleteBefore` | worker_cpp/formats/pdf.cpp:65-68 | deleting at position one leaves the pages from the range's start, and fails exactly when there are too few |
| `PdfPages.Document.KeepRange` | worker_cpp/formats/pdf.cpp:48-71 | the whole document is left alone, otherwise exactly the range is left; fails exactly when the range starts beyond the end |
| `PdfPages.RenderRange` | worker_cpp/formats/pdf.cpp:142-184 | a render yields exactly the range, clipped at the document's end |
| `RenderTree.Job.RenderWithRetry` | internal/orchestrator/orchestrator.go:267-331 | by page interval: succeeds exactly when the chunk, or recursively its halves, can be rendered; gives exactly its pages; hits, renders, halvings, launches and depth are those of its tree; at most 2s-1 launches and ceil(log2 s) levels; an error names a part that really fails so, with the worker's code |
| `RenderTree.TallyCountsRanges` | internal/orchestrator/orchestrator.go:267-331 | the hits are the ranges reached that are in the cache, the renders those the worker renders, the halvings those it has no memory for |
| `RenderTree.PlanTallyBalances` | internal/orchestrator/orchestrator.go:158-172 | over a plan, renders and hits are the halvings and the planned chunks together; without a cache nothing is a hit |
| `RenderTree.CeilLog2IsLeast` | internal/orchestrator/orchestrator.go:294-299 | the depth bound is the least k with s <= 2^k |
| `RenderTree.CoverRebuildsDocument` | internal/orchestrator/orchestrator.go:132-146 | the slices of a cover of 1..P concatenate to the document's first P pages |
| `RenderTree.DispatchOneShot` | internal/orchestrator/orchestrator.go:251-263 | by page interval: succeeds exactly when every chunk can be rendered, with the first P pages; each of the three counters is that of the plan's trees |
| `RenderPaths.StepStaysSound` | internal/orchestrator/orchestrator.go:294-320 | a step on a chunk halved only to the right writes only its own files and keeps them right |
| `RenderPaths.FinishedJobHasAllPages` | internal/orchestrator/orchestrator.go:267-331 | in every interleaving, when names stay apart, the merged files are the pages 1..N once each and in order |
| `NameClashes.FilesAreRightIffNamesStayApart` | internal/planner/planner.go:172-175 | for two or more workers, every intermediate file is right and no merge refused, in every interleaving, if and only if no left half is halved again and no half outside the last chunk |
| `SinglePermit.FilesAreRightIffResultsStayApart` | internal/planner/planner.go:172-175 | with a single worker, if and only if no left half is halved again and no chunk may write the file another chunk ends in |
| `SinglePermit.FinishedOneByOneHasAllPages` | internal/orchestrator/orchestrator.go:267-331 | under that condition a finished job has merged the pages 1..N once each and in order |
| `NameClashes.DocumentSilentlyWrong` | internal/orchestrator/orchestrator.go:306-320 | a run that finishes without an error and merges the wrong pages |
| `FinishRuns.FinishRange` | internal/orchestrator/orchestrator.go:267-331 | waiting chunks halved only to the right, rendered one after another, all end in their own files with their own pages, whatever was in the files before, and write no others |
| `WrongOutputs.HalvedLeftNeverFinishes` | internal/orchestrator/orchestrator.go:306-320 | a job in which a left half is halved again finishes in no interleaving |
| `WrongOutputs.OutputRightIffSeveralPermits` | internal/orchestrator/orchestrator.go:306-320 | for two or more workers, every finished output is the pages 1..N if and only if names stay apart or some left half is halved again |
| `WrongOutputs.OutputRightIffOnePermit` | internal/orchestrator/orchestrator.go:306-320 | for a single worker, if and only if no chunk may write the file another ends in or some left half is halved again |
| `OneShotFiles.FinishesIffRightOnly` | internal/orchestrator/orchestrator.go:294-320 | when single pages fit, some interleaving finishes if and only if no left half is halved again; then none ever fails |
| `OneShotFiles.RightOutputIsDocument` | internal/orchestrator/orchestrator.go:132-153 | such an output is the document's first N pages |
| `OneShotFiles.ConversionRightIffFilesStayApart` | internal/orchestrator/orchestrator.go:102-153 | for every probe and settings: the conversion can finish, and finishes only with the right pages, if and only if the files stay apart |
| `RenderAll.BoundedConcurrency` | internal/orchestrator/orchestrator.go:336-372 | in every interleaving at most max(1, parallel) renders are under way |
| `RenderAll.AllPermitsCanBeUsed` | internal/orchestrator/orchestrator.go:336-372 | and so many can be: all chunks at once, or max(1, parallel) |
| `RenderAll.ReturnIsFaithful` | internal/orchestrator/orchestrator.go:374-380 | an error is one that a render returned; otherwise, unless cancelled from outside, slot i holds what chunk i's render returned; no render is still under way |
| `RenderAll.ErrorIsTheFirst` | internal/orchestrator/orchestrator.go:364-376 | the error is e if and only if the earliest render that failed returned e |
| `RenderAll.NothingBeginsAfterFailure` | internal/orchestrator/orchestrator.go:353-362 | after a failed render or an outside cancel no render begins |
| `RenderAll.EmptySlotMeansCancelledOutside` | internal/orchestrator/orchestrator.go:353-361 | without an error a slot is empty exactly when its chunk was not rendered, and only after an outside cancel |
| `RenderAll.CancelledOutsideLosesSlots` | internal/orchestrator/orchestrator.go:353-361 | for every number of chunks an outside cancel can end in no error and only empty slots |
| `Convert.PoolPlanCovers` | internal/orchestrator/orchestrator.go:211-217 | whatever the estimate, the pool's plan covers the reported page count |
| `Convert.LimitKeepsMinimum` | internal/orchestrator/orchestrator.go:103-110 | spreadsheets and slides keep each their own minimum; beyond that the limit is the smaller of the adaptive size and the configured one |
| `Convert.PoolPlanKeepsLimits` | internal/orchestrator/orchestrator.go:211-217 | every chunk of the pool's plan, replanned or not, is a single page or within 1.5 times both limits |
| `Convert.SortChangesNothing` | internal/orchestrator/orchestrator.go:132-137 | an unstable sort by index leaves numbered results as they are |
| `Convert.SucceededFileIsRight` | internal/worker/pool.go:467-489 | in every run of the pool, the file of a call that succeeded holds its chunk's pages, whatever failed renders leave behind |
| `Convert.MergeOfSlots` | internal/orchestrator/orchestrator.go:132-146 | when the files that are there hold their chunks, the sorted merge gives the planned pages, or fails exactly for want of a file |
| `Convert.ChunkFileIsRight` | internal/worker/pool.go:467-489 | in every run of the pool, the file of a chunk reported rendered holds that chunk's pages |
| `Convert.PoolModeKeepsPages` | internal/orchestrator/orchestrator.go:102-153 | pool mode without the cache, all interleavings, any estimate: the output is the first P pages, and the whole document when the pool reported its count |
| `PoolWithCache.PoolModeWithCache` | internal/orchestrator/orchestrator.go:219-243 | with the cache, in every interleaving of pool, cache and other jobs: the output is the first P pages, or the merge fails because a cached file it was given is gone |
| `PoolSucceeds.WrittenNamesAreApart` | internal/worker/worker.go:334-340 | chunk names as they are written tell whole indices apart and need no escapes |
| `PoolSucceeds.PoolModeCanSucceed` | internal/orchestrator/orchestrator.go:102-153 | for every document that is not empty, every estimate, all settings and any number of children, some run meets all that PoolModeKeepsPages asks for and outputs the document |
| `PoolSucceeds.PoolModeWithCacheCanSucceed` | internal/orchestrator/orchestrator.go:219-243 | likewise for PoolModeWithCache, leaving every chunk in the cache |
| `Convert.OneShotMode` | internal/orchestrator/orchestrator.go:102-172 | one-shot mode by page interval: exactly when it succeeds, output equal to the document if and only if the probe did not count too few, and each of the three counters |
| `PoolProtocol.Answer` | worker_cpp/pool.cpp:325-347 | the reply bears the command's number, is a success exactly for good arguments and a normal end, and fails with 137 for out of memory, the worker's own code and text, or 1 |
| `PoolProtocol.FirstIdle` | worker_cpp/pool.cpp:453-456 | the first child not busy |
| `ForkPool.LoopInvStep` | worker_cpp/pool.cpp:489-559 | every step keeps: leader busy only inside its inline render, empty queue, a live child busy exactly with one unanswered command |
| `ForkPool.ConservedStep` | worker_cpp/pool.cpp:489-559 | every step keeps each accepted command in exactly one place |
| `ForkPool.LossIsExact` | worker_cpp/pool.cpp:545-548 | a step loses a command exactly when it is sent to a dead child or a child dies holding it |
| `ForkPool.SeenStep` | worker_cpp/pool.cpp:502-524 | no step duplicates a command |
| `ForkPool.ProvenanceStep` | worker_cpp/pool.cpp:527-551 | every reply under way answers an executed, submitted command |
| `ForkPool.AnswersAreWritten` | worker_cpp/pool.cpp:473-536 | a command counts as answered exactly when a step puts its reply on stdout |
| `ForkOnce.AtMostOnceStep` | worker_cpp/pool.cpp:489-559 | every step keeps: a command to be executed is so in one place, an executed one in none, and was executed once |
| `PoolDrains.CanDrain` | worker_cpp/pool.cpp:489-559 | from any state of leader and children, whoever has died, once stdin is closed all of it can be read and the loop left |
| `PoolLoop.EventLoop.TryAssign` | worker_cpp/pool.cpp:453-487 | first idle child, else inline, else refused; the whole new state |
| `PoolLoop.EventLoop.HandleStdin` | worker_cpp/pool.cpp:502-524 | one read of stdin: quit stops it, unknown commands are answered, renders placed or queued |
| `PoolLoop.EventLoop.HandleChild` | worker_cpp/pool.cpp:527-551 | one read of a child: each reply forwarded, the child freed, the oldest queued command sent |
| `PoolLoop.BatchRefinesSteps` | worker_cpp/pool.cpp:502-524 | the stdin handler reaches what the leader's steps reach |
| `PoolLoop.RepliesRefineSteps` | worker_cpp/pool.cpp:527-551 | the child handler reaches what the leader's steps reach |
| `ReplyDemux.ForkedPoolLeader.NextSeqNo` | internal/worker/pool.go:468-471 | the number is greater than all given out and than all still registered |
| `ReplyDemux.ForkedPoolLeader.Register` | internal/worker/pool.go:425-431 | a new empty channel under the number, the invariant kept |
| `ReplyDemux.ForkedPoolLeader.Deliver` | internal/worker/pool.go:376-401 | the registered channel gets the reply and is forgotten; a reply nobody waits for is dropped; the send has room |
| `ReplyDemux.ForkedPoolLeader.FailAllPending` | internal/worker/pool.go:403-410 | every waiting channel gets exactly one message, none blocks, in any map order |
| `ReplyDemux.DemuxInvStep` | internal/worker/pool.go:376-437 | every step of callers and reader keeps: a pending channel is empty, at most one message a call, numbered for it |
| `ReplyDemux.HeldSendFits` | internal/worker/pool.go:384-390 | the reader's send outside the mutex has room |
| `ReplyDemux.EndReachesEveryWaiter` | internal/worker/pool.go:396-410 | at the end of output every pending call gets exactly one message, the others none |
| `ReplyDemux.CallersAreSteps` | internal/worker/pool.go:425-437 | drawing a number, registering and unregistering change the table as the methods do |
| `ReplyDemux.DeliverIsSteps` | internal/worker/pool.go:376-395 | reading a reply and sending it change the table and every channel as Deliver does |
| `ReplyDemux.FailAllIsStep` | internal/worker/pool.go:396-410 | the end of the output changes them as FailAllPending does |
| `ForkProtocol.SystemInvStep` | worker_cpp/pool.cpp:489-559 | every step of callers, reader, leader, children and pipes keeps the whole invariant |
| `ForkProtocol.ReplyMatchesCall` | internal/worker/pool.go:467-498 | in every run a reply handed to a call bears its number, answers one execution of its own range and path, and is no other call's result |
| `ForkProtocol.SuccessMeansRendered` | internal/worker/pool.go:481-488 | success means that this call's range was rendered to this call's path |
| `ForkProtocol.ExecutedForACall` | worker_cpp/pool.cpp:325-347 | nothing is rendered that no call asked for |
| `ForkProtocol.ExecutedAtMostOnce` | worker_cpp/pool.cpp:325-347 | in every run a command is executed at most once, with one outcome |
| `ForkProtocol.ReaderNeverBlocks` | internal/worker/pool.go:376-401 | in every run no channel gets a second message and the reader's send has room |
| `ForkProtocol.LoopHeadState` | worker_cpp/pool.cpp:489-491 | at every loop head: leader idle, queue empty, nothing refused, live children busy exactly with one command |
| `ForkProtocol.NothingIsQueued` | worker_cpp/pool.cpp:513-515 | a render command is always placed at once |
| `ForkProtocol.LoopEndsWhenIdle` | worker_cpp/pool.cpp:490-558 | in every run the loop ends exactly when stdin is closed and no child busy; the queue, the leader's flag and the break never decide |
| `ForkProtocol.ExitAnswersEveryCommand` | worker_cpp/pool.cpp:489-559 | at exit each accepted command had exactly one reply put on the pipe or was lost with a child; with all children alive none was lost; without a quit every command ever written was accepted or is unread |
| `ForkProtocol.AnswersAreOnThePipe` | worker_cpp/pool.cpp:473-536 | in every run the answered commands are those of the replies read and on the pipe, in order |
| `CallsServed.ReadReplyIsWithItsCall` | internal/worker/pool.go:376-395 | in every run the reply to a waiting call, once read, is in its channel or in the reader's hands |
| `CallsServed.AllCallsCanReturn` | internal/worker/pool.go:376-498 | from every reachable state with the leader running and no quit, all calls can return without anybody dying; while all children live, each with the reply to its own command |
| `CallErrors.AnsweredCallTellsOutcome` | internal/worker/worker.go:230-252 | in every run an answered call returns what its one execution came to: its path exactly for a success, out of memory exactly for that or code 137 |
| `ForkProtocol.AcceptedIsInOnePlace` | worker_cpp/pool.cpp:442-559 | at any time an accepted command is in exactly one place |
| `ForkProtocol.ChildOutOfMemoryLosesNextCommand` | worker_cpp/pool.cpp:340-342 | a run in which a child's memory failure loses the next command |
| `Framing.WriteLine` | worker_cpp/pool.cpp:251-267 | however writes are cut or interrupted, success puts out the whole line, failure a proper prefix |
| `Framing.LineAccumulator.Drain` | worker_cpp/pool.cpp:270-296 | one drain puts out the lines of buffer and input, keeps the remainder, and closes only at the end or on an error |
| `Framing.LinesJoin` | worker_cpp/pool.cpp:278-285 | splitting in two reads gives the same lines and remainder |
| `Framing.FramingRoundTrip` | worker_cpp/pool.cpp:251-296 | single lines come back exactly, for any fragments, with what has come of a further line in the buffer |
| `Framing.ReceivedIsAlwaysAPrefix` | worker_cpp/pool.cpp:270-296 | at any earlier time the first few lines have come and the buffer holds part of the next |
| `Framing.OnlySingleLinesSurvive` | worker_cpp/pool.cpp:251-254 | a text is transmitted as one line if and only if it has no newline inside |
| `Decimals.DecimalThenMore` | worker_cpp/pool.cpp:195-196 | a number followed by a non-digit is read back |
| `CommandWire.JsonString` | worker_cpp/pool.cpp:172-186 | the cursor loop finds the quoted text after the first quoted key |
| `CommandWire.JsonInt` | worker_cpp/pool.cpp:188-200 | the cursor loop reads the number after the first quoted key, or -1 |
| `CommandWire.FindIsAfter` | worker_cpp/pool.cpp:174-177 | searching a line for a quoted key is looking among the texts between its quotes |
| `CommandWire.CommandRoundTrip` | internal/worker/pool.go:475-478 | a command with a plain path is read back exactly if and only if the path is none of the numeric keys and the numbers fit |
| `CommandWire.PathNamedLikeAKey` | worker_cpp/pool.cpp:188-200 | a limit of the key search: a path called seq would be read as a command with number -1 |
| `CommandWire.CommandIsOneLine` | internal/worker/pool.go:439-446 | a command is a single line |
| `ReplyWire.EscapeJson` | worker_cpp/pool.cpp:238-248 | the loop escapes character by character |
| `ReplyWire.ReadEscaped` | worker_cpp/pool.cpp:238-248 | JSON string decoding (RFC 8259, section 7) undoes escaping for text whose only control character is the newline, and rejects any other |
| `ReplyWire.ReplyRoundTrip` | worker_cpp/pool.cpp:299-311 | a reply line decodes to the reply for such text, and to nothing otherwise |
| `ReplyWire.ReplyIsOneLine` | worker_cpp/pool.cpp:299-311 | a reply is a single line |
| `Wire.CommandsArrive` | worker_cpp/pool.cpp:502-513 | commands arrive in order as sent, for any fragments, if and only if each can be read back |
| `Wire.RepliesArrive` | internal/worker/pool.go:376-395 | replies arrive one for one, those with other control characters as lines to be dropped |
| `PipeContents.RequestIsSendable` | internal/worker/pool.go:548-549 | every chunk's path in a plain scratch directory, with numbers of C int size, makes a command that is read back |
| `PipeContents.PipesCarryValues` | internal/worker/pool.go:475-478 | in every run that serves a plan, every command ever written and every success reply in the pipe survive their encoding |
| `Cache.KeysTellPartsApart` | internal/planner/planner.go:180-188 | the hashed text is injective in digest, range and format |
| `Cache.VisibleIsComplete` | internal/cache/cache.go:96-193 | while sources can be trusted: in every interleaving of renders, writes, renames, failures, crashes and clears, a file under a key is a complete render for it |
| `Cache.ChunkHitIsRight` | internal/orchestrator/orchestrator.go:219-243 | while sources can be trusted: a chunk found in the cache reads as its own render, also after a clear or replacement |
| `Cache.CacheIsTransparent` | internal/orchestrator/orchestrator.go:271-279 | while sources can be trusted: a job's output does not depend on which chunks came from the cache |
| `Cache.HitsRightIffFormatImmaterial` | internal/cache/cache.go:44-62 | every hit is right in every run with trusted sources if and only if no source has different results in two formats |
| `Cache.RewrittenSourcePoisons` | internal/cache/cache.go:175-193 | trust is needed: a source written over between render and copy puts any other content under the key |
| `PoolWithCache.PoolSourcesAreTrusted` | internal/orchestrator/orchestrator.go:233-238 | in every run of the pool, each file being copied into the cache holds the pages it is stored for |
| `PoolWithCache.RunIsTrusted` | internal/orchestrator/orchestrator.go:219-243 | every run of pool and cache side by side is a run of the cache whose sources can be trusted all the time |
| `CacheSources.OneShotSourcesAreTrusted` | internal/orchestrator/orchestrator.go:326-329 | with one process a chunk it does while names stay apart, or with a single worker while no left half is halved again |
| `CachedRenders.StoredRightIffNamesStayApart` | internal/orchestrator/orchestrator.go:326-329 | for two or more workers, every entry ever stored is right if and only if names stay apart |
| `CachedRenders.StoredRightIffOnePermit` | internal/orchestrator/orchestrator.go:326-329 | with a single worker, if and only if no left half is halved again |
| `CachedRenders.PoisonedEntry` | internal/orchestrator/orchestrator.go:326-329 | a run that stores pages 5 to 8 under the key of page 4 |
| `Cache.Directory.AtomicWrite` | internal/cache/cache.go:175-193 | the target gets the whole source or stays; no other name changes; no temporary name is left |
| `Cache.AtomicWriteIsSteps` | internal/cache/cache.go:175-193 | the method's effect is that of the store's create, append and publish or abort |
| `Cache.Directory.Clear` | internal/cache/cache.go:118-150 | exactly the removable files go; each of the counts of files, errors and freed pages is right |
| `RateLimit.SpentStaysSane` | internal/ratelimit/ratelimit.go:70-92 | tokens stay between zero and the burst size |
| `RateLimit.RetryAfterSuffices` | internal/ratelimit/ratelimit.go:101-108 | waiting w seconds is enough exactly from the waiting time on; the advice is above it by at most a second, a whole second exactly for whole waiting times |
| `RateLimit.MinuteIsSixtySeconds` | internal/ratelimit/ratelimit.go:57-73 | a bucket left alone for w seconds has gained w * perMinute / 60 tokens as far as it holds them: let through from a whole token on, full from there on |
| `RateLimit.NewClientHasBurst` | internal/ratelimit/ratelimit.go:76-113 | a new client is let through with burst - 1 remaining; Limit is perMinute |
| `RateLimit.RemainingCountsDown` | internal/ratelimit/ratelimit.go:87-113 | Remaining is the number of further checks that would pass at the same instant |
| `RateLimit.ResetIsWhenFull` | internal/ratelimit/ratelimit.go:98-99 | a bucket left alone is full exactly from the waiting time behind ResetEpochSeconds on; the reported second is the one that time falls into |
| `RateLimit.Limiter.Check` | internal/ratelimit/ratelimit.go:64-116 | the map and list of entries become the value-level list with the client's refilled bucket at the end; the decision is the bucket's, the reset time that of the second clock reading |
| `RateLimit.MostRecentStep` | internal/ratelimit/ratelimit.go:70-96 | a check keeps the list in order of last use, each client once, at most maxKeys |
| `RateLimit.KnownIffRecent` | internal/ratelimit/ratelimit.go:76-84 | a client is still known if and only if fewer than maxKeys others were checked since |
| `RateLimit.SameDecisions` | internal/ratelimit/ratelimit.go:64-96 | for a client always checked again in time, every decision equals that of a limiter without a bound |
| `RateLimit.KeptInMindIffDecidedAlike` | internal/ratelimit/ratelimit.go:64-96 | a client's decisions are the unbounded limiter's at all ascending times if and only if it is always checked again in time |
| `RateLimit.GrantsAreBounded` | internal/ratelimit/ratelimit.go:70-92 | in any window of T seconds such a client gets at most burst + T * perMinute / 60 grants |
| `RateLimit.GrantsAreEarned` | internal/ratelimit/ratelimit.go:70-92 | a client that checks at least every 60 / perMinute seconds, against a burst of two or more, gets at least 1 + T * perMinute / 60 grants in its T seconds, and at most burst + T * perMinute / 60 |
| `RateLimit.ForgottenClientStartsAfresh` | internal/ratelimit/ratelimit.go:76-84 | an input: a forgotten client gets two grants at one instant against a burst of one |
| `Recent.KeyOrder` | internal/obs/recent.go:181-186 | the order by time and id is a strict total order |
| `Recent.Paginate` | internal/obs/recent.go:136-157 | the loops cut the page that the filter defines |
| `Recent.RecentStore.Record` | internal/obs/recent.go:48-55 | newest first, the oldest beyond the capacity gone |
| `Recent.RecentStore.ListConversions` | internal/server/server.go:214-252 | an unknown filter means all, the limit is kept within 1 to 100, the page is cut from the matching records, each of which has the source or status asked for; the buffer's size may be that of a later moment |
| `Recent.ListedIsAsked` | internal/obs/recent.go:84-97 | the listing has exactly the records with the source or status that each filter asks for |
| `Recent.WalkSeesEachOnce` | internal/obs/recent.go:134-178 | over a strictly descending snapshot a walk ends and sees each record exactly once, in order, for every limit |
| `Recent.SeenWholeIffDescending` | internal/obs/recent.go:134-186 | walks with every limit see everything exactly once if and only if the snapshot is strictly descending |
| `Recent.StaleIffNothingOlder` | internal/obs/recent.go:140-149 | while records come and go, a cursor is stale if and only if neither its anchor nor anything older survives |
| `Recent.NothingShownTwice` | internal/obs/recent.go:134-178 | over changing snapshots no record is shown twice |
| `Recent.NoSurvivorMissed` | internal/obs/recent.go:134-178 | a finished walk has shown every matching record that was there at the start and still is |
| `Recent.WalkEnds` | internal/obs/recent.go:134-178 | a walk that never goes stale has at most as many pages as there were matching records at its start, and then no more to come |
| `Recent.RecordedJoin` | internal/obs/recent.go:48-55 | several records put in are one step between snapshots |
| `CsvInput.ColLetter` | internal/csvinput/csvinput.go:153-164 | the loop computes the bijective base-26 name |
| `CsvInput.ColumnsAreABijection` | internal/csvinput/csvinput.go:153-164 | column numbers and non-empty A to Z names correspond one to one, shorter names first, then alphabetically |
| `CsvInput.EscapingIsSimultaneous` | internal/csvinput/csvinput.go:174-180 | the three replacements in turn are one replacement character by character |
| `CsvInput.UnescapeEscape` | internal/csvinput/csvinput.go:174-180 | unescaping undoes escaping |
| `CsvInput.NoMarkupLeft` | internal/csvinput/csvinput.go:174-180 | escaped text has no angle bracket |

## Left out

- Convert.OneShotMode: identifies chunks by page interval and renders them one after the other, so it says "succeeds" where the code's merge may be refused or read another chunk's file; OneShotFiles.ConversionRightIffFilesStayApart says when.
- RenderTree.Job.RenderWithRetry: likewise identifies chunks by page interval; the shared scratch names are in RenderPaths.
- RenderTree.DispatchOneShot: likewise, and one chunk after the other; the interleaving is in RenderAll and RenderPaths.
- CachedRenders.StoredRightIffNamesStayApart: follows the first job on an empty cache, whose lookups all miss; CachedRenders.StoredRightIffOnePermit likewise.
- PoolWithCache.PoolModeWithCache: what other jobs copy into the same cache is taken to be right while they copy it.
- PoolSucceeds.WrittenNamesAreApart: spells whole indices as they are written up to six digits; larger ones get an exponent.
- RateLimit.GrantsAreEarned: against a burst of one, what is earned between checks can overflow the bucket; only the upper bound is stated.
- PipeContents.PipesCarryValues: a failure reply whose detail has other control characters than newlines is excepted, see ReplyWire.ReplyRoundTrip.
- Framing.LineAccumulator.Drain: says nothing about time. After a read of exactly 4096 bytes it reads again, which waits on a blocking descriptor.
- ReplyWire.ReadEscaped: of the escapes only the two-character ones, since the workers write no others.
- Cache.Directory.AtomicWrite: directories are not modelled, so neither is a clear that removes one between creating it and opening a file in it.
- Floating point: sizes, times, tokens and fractional indices are real numbers.
- Text is sequences of characters; bytes that are no valid UTF-8 and the encoder's escapes for paths that are not plain are not modelled.
- Pipes and socket buffers have no capacity; a write to a child that has died is lost without a signal; a failed poll, a signal or a full stop of the leader is one crash step.
- The load handshake under sequence number 0, the timeouts' lengths and shutting down the processes.
- In RenderPaths writing a file is one step and truncated inputs are refused by the merge. Failures other than of memory are not modelled there.
- Seams that are out of order or overlap.
- The base64 form of the cursor.
- The older worker pool without sequence numbers, which relies on when processes are killed.
- Format probing, HTTP handlers other than the listing, configuration, licences, e-mail, statistics, logging, network policy, and the user interface.
