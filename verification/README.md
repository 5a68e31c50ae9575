# A verified model of the memory daemon's protocols and algorithms

The daemon keeps an agent's memory: on-device model passes propose drafts, one
writer thread lands them in a vault of Markdown pages, background passes fill in
missing embeddings, and a benchmark measures what is recalled. This project models
the parts in which a mistake would lose or duplicate a decision, starve a row, or
publish a wrong number, and proves what those parts promise over every input, every
run and every interleaving.

| file | what it models |
|---|---|
| `WriterProtocol.dfy`, `WriterInvariants.dfy`, `WriterTheorems.dfy`, `WriterFates.dfy` | the draft writer: submitters, the worker, time-outs, sticky lifecycles, crash and restart, as a state machine, its invariant, theorems over runs, and what becomes of each lifecycle |
| `WriterObjects.dfy`, `DraftWriter.dfy` | the objects that submitter, queue, worker and in-flight table share, and the class whose methods take the protocol's steps on them |
| `InboxLedger.dfy` | the two-phase inbox ledger and its crash points |
| `DraftExpiry.dfy` | the expiry sweep racing endorsement |
| `TokenGroups.dfy`, `AfmChunking.dfy`, `WordIntervals.dfy`, `Words.dfy` | grouping and splitting model input to a token budget |
| `AtomicBlocks.dfy`, `MarkdownChunker.dfy` | the Markdown chunker |
| `Backfill.dfy`, `Scheduler.dfy` | the batch cursors of the backfill and the idle scheduler |
| `BenjaminiHochberg.dfy`, `RankingMetrics.dfy`, `JudgeGate.dfy` | the arithmetic of the benchmark's scores |
| `Scrub.dfy`, `DocRename.dfy`, `DocMarker.dfy` | redaction spans, renaming of files, doc-id markers |
| `StableSort.dfy`, `Sets.dfy`, `Fractions.dfy`, `Wrappers.dfy` | Python's `sorted`, facts about finite sets and real quotients, and result types |

`dafny verify dfyconfig.toml` checks all of it.

## How the code is modelled

*The writer.* Each section the source runs under `_IN_FLIGHT_LOCK`, and each unlocked
write another thread can see, is one atomic step; a run is any sequence of enabled
steps, including a crash at any moment, after which only the sidecar is left. A
ghost log records what happened across restarts, and a mark on each record what has
become of its lifecycle. The caller that got the result applies the lifecycle itself
(src/minni/minnid_runtime/afm.py:839-851); that is a step too. The model assumes one
vault per process, a sidecar whose read-modify-write succeeds or is refused as
unreadable at submit time, and jobs submitted with `wait=True`. In `DraftWriter` a
batch is three objects (job dictionary, event, `out` dictionary) to which the waiter,
the queue, the worker and the in-flight table refer; each method is proved to take
exactly one step of the protocol through whichever reference it has.

*The ledger.* A disk is a map of pages and a list of runs. The durable writes of one
batch are numbered, and `DiskAt(d, b, k)` is what a crash after the k-th leaves.

*Expiry.* A page is a list of lines. Sweeps, endorsements and re-stampings interleave
freely; each thread reads outside the lock, locks by page id, reads again and writes.
The methods get what the unlocked reads saw, and what others did before each lock, as
parameters.

*Text and numbers.* Strings are sequences of characters with Python's `split`, `join`,
`replace` and `splitlines` written out. Tokenizers, regular-expression matches,
p-values, discounts and model answers are parameters, arbitrary within what the
source assumes of them. The requests made to the model are kept in a log, each with
the chunk size of the split its text is a piece of. Floating point is real arithmetic.

## What the model found

These are places where the code does not do what its comments, tests or documentation
promise. The model follows the code; a lemma shows the case, and another says exactly
when the promise holds.

* **A crash between landing drafts and recording their lifecycle loses the decision
  set** (`CrashWindow`, `CrashMintsAgain`): a landed lifecycle is neither recorded nor
  applied exactly while the worker is between its write and the end of a deferred
  apply, or, where the lifecycle was not left to the worker, until its caller has
  applied it completely; a restarted daemon then accepts the same pass again. Both windows are reachable
  (`WorkerOwesIt`, `CallerOwesIt`), and an apply of the caller that falls short is
  never repeated by anybody.
* **A retry never marks a crashed page written** (`CrashedPageStaysPending`): it marks
  a page written exactly when its id does not count as landed on the disk it finds.
* **A stale ledger row makes a retry lose a draft**, exactly when a row gives a draft
  that lands the path of an earlier draft that lands (`RetryCatchesUp`,
  `CrashesDoNotChangeThePages`, `StaleRowsExist`).
* **Two page ids that ask for one path lose a draft whose row says written**
  (`FaithfulUnlessPathsCollide`, `PathsCanCollide`).
* **A batch that repeats the key of an earlier run of the day replaces that run's rows**
  (`FlipTouchesOnlyOwnRun`), and leaves a page without a row exactly when no other run
  and no draft of the batch names it (`CoveredAtEveryCrash`).
* **A page with two draft status lines stays a draft** (`SettleEffect`), and pages
  without an id have no lock, so concurrent sweeps count one twice
  (`IdlessPageCountedTwice`).
* **Sentence snapping in the Markdown chunker does nothing at the default sizes**
  (`SnapMovesExactly`, `LongWindowsNeverSnap`, `DefaultsNeverSnap`): the limit meant
  for the added words is compared with the length of the whole window.
* **Backfill rows can wait for ever while new rows keep arriving at the end**
  (`SteadyArrivalsStarveTheHead`, for every limit): a row that stays eligible is
  attempted if and only if it lies ahead of the cursor or some pass finds nothing left
  ahead of the cursor (`AttemptedExactly`). Ids that are not positive are never taken
  (`OnlyPositiveIds`).
* **A pass with an empty name stops the scheduler** (`EmptyNameStopsTheLoop`).
* **An empty match at the start of a chosen redaction span makes text come out twice**
  (`ScrubReplacesExactly`, `EmptyMatchRepeatsText`); only an alias for the empty name
  has empty matches.
* **`split_text` loses words for a chunk size below 1 or a negative overlap**, and for
  no other (`SplitsLoseNothingExactly`); its callers pass neither.
* **A heading that holds a marker hides the stamped one** (`MarkedIdComesBack`,
  `HeadingMarkerWins`).
* **Grouping an empty list yields one empty group**, the one case in which fewer would
  do (`GreedyGroupingIsOptimal`).

## Model

| member | source | states |
|---|---|---|
| WriterTheorems.NoSecondDraftSet | src/minni/afm_writer.py:1759-1996 | in every run, crashes and restarts included, a batch is queued only while no recorded lifecycle of its pass is un-applied; the sidecar names exactly the passes that are owed one, and memory equals it once hydrated |
| WriterTheorems.OneBatchPerPass | src/minni/afm_writer.py:1822-1855 | in every reachable state at most one batch per pass is unfinished, none for a pass with a pending lifecycle, and the queue never exceeds its bound |
| WriterTheorems.ExactlyOnceHandOff | src/minni/afm_writer.py:2000-2037 | however time-out and completion interleave, a landed batch's lifecycle goes to exactly one of submitter and worker, and a failed batch is raised or counted as unrecovered, never both, never neither |
| WriterTheorems.CountersExactAndEventsCarryOutcome | src/minni/afm_writer.py:1661-1707 | the unrecovered and time-out counters equal the number of such jobs, and a waiter that sees the event finds an outcome |
| WriterTheorems.NeverWedged | src/minni/afm_writer.py:1759-1855 | a submit that can read the sidecar is refused exactly while a batch of its pass is unfinished, another submitter re-applies, or the entry finds no handler; otherwise it re-applies what is on disk, goes behind the queue, or meets a full queue and is counted |
| WriterTheorems.SidecarStep | src/minni/afm_writer.py:346-385 | one step changes a pass's entry on disk only if a re-apply's report says, by its fields, that the entry is done with (entry goes), or by setting that batch's own lifecycle aside (entry appears) |
| WriterTheorems.DurableUntilApplied | src/minni/afm_writer.py:497-540 | over any run, a recorded lifecycle stays on disk unchanged until a re-apply reports, by its fields, that it is done with |
| WriterProtocol.VerdictMeans | src/minni/afm_writer.py:1483-1523 | an apply is complete exactly if the handler returned something that is no dictionary, or a report with nothing still proposed and no error, or one silent about that, without errors, that handled nothing or at least the positive number asked for; it did work unless it is a dictionary that counts none |
| WriterTheorems.ReportedExactly | src/minni/afm_writer.py:1579-1626 | after the deferred handler the entry is gone, and the batch counts as applied, exactly under that condition on the report; otherwise this very lifecycle is in memory and on disk and the event stays unset |
| WriterTheorems.ReapplyExactly | src/minni/afm_writer.py:1860-1970 | after a sticky handler the entry is gone exactly under that condition, and otherwise stays as it was with the submit refused; once it is gone the submit's batch is queued, or finds the queue full, exactly if the report is a dictionary that counts no work; otherwise its drafts are counted as given up for a recovery |
| WriterTheorems.OwnApplyExactly | src/minni/minnid_runtime/afm.py:839-851 | the caller's own apply marks the lifecycle applied exactly under that condition and changes nothing else |
| WriterFates.FateStep | src/minni/afm_writer.py:1526-1658 | the marks mean what they say: a lifecycle counts as applied exactly from the step on that reports it complete, one set aside is on disk as submitted and got there by the worker's hand, and only a crash takes either back |
| WriterFates.StepFates | src/minni/afm_writer.py:1526-2037 | every step keeps the marks in agreement with the places of batches, the waiters and the sidecar |
| WriterFates.CrashWindow | src/minni/afm_writer.py:1526-1680 | at any moment of any run a landed lifecycle is neither applied nor recorded exactly if it is owed: by the worker between its write and the end of a deferred apply, or else by the caller until its own apply is complete; a crash then and a submit of the pass queue a second draft set exactly if, besides, nothing of the pass is on disk, which always holds in the worker's window |
| WriterFates.CrashMintsAgain | src/minni/afm_writer.py:1759-1855 | from every such moment, the run that goes on with the crash and the submit enqueues the pass again and leaves the sidecar as it was |
| WriterFates.WorkerOwesIt | src/minni/afm_writer.py:1661-1676 | the worker's window is reachable |
| WriterFates.CallerOwesIt | src/minni/minnid_runtime/afm.py:839-851 | so is the caller's: the result is there, nobody has applied the lifecycle, and the worker is done |
| WriterTheorems.RunKeeps | src/minni/afm_writer.py:1742-2037 | the invariant survives every run from every state that satisfies it |
| WriterInvariants.StepKeeps | src/minni/afm_writer.py:1526-2037 | every step of every thread keeps the invariant |
| WriterInvariants.SubmitKeeps | src/minni/afm_writer.py:1759-1855 | the submit section keeps the invariant on every branch |
| WriterInvariants.FinishReapplyKeeps | src/minni/afm_writer.py:1857-1996 | the section after a sticky re-apply keeps the invariant, whether the handler raises, is incomplete, did work or did nothing |
| WriterInvariants.TimeoutKeeps | src/minni/afm_writer.py:2000-2020 | the time-out section keeps the invariant |
| WriterInvariants.ClaimKeeps | src/minni/afm_writer.py:1545-1578 | the worker's claim keeps the invariant |
| WriterInvariants.ReportKeeps | src/minni/afm_writer.py:1579-1656 | what follows the deferred handler call keeps the invariant |
| WriterInvariants.CrashKeeps | src/minni/afm_writer.py:543-573 | losing all memory keeps the invariant: what hydration needs is on disk |
| DraftWriter.Writer.constructor | src/minni/afm_writer.py:1719-1725 | the objects of a fresh process with an empty vault represent the initial state |
| DraftWriter.Writer.Restart | src/minni/afm_writer.py:1719-1725 | a restart is the crash step: nothing but the sidecar is left, and no call of before is known |
| DraftWriter.Writer.HydratePending | src/minni/afm_writer.py:543-573 | merging the file under memory is the hydration step, and no batch sees a difference |
| DraftWriter.Writer.SubmitDrafts | src/minni/afm_writer.py:1759-1855 | the submit section makes the batch's objects, puts exactly them into queue and in-flight table, and takes the protocol's step on every branch |
| DraftWriter.Writer.ReapplyFailed | src/minni/afm_writer.py:1878-1906 | after a handler that raised or whose report leaves something to do, this very lifecycle is in memory and on disk, the claim still held |
| DraftWriter.Writer.Recover | src/minni/afm_writer.py:1908-1941 | after any other report the event found in the in-flight table is set, so the batch that holds the pass, and no other, sees it; the entry is gone, and the answer follows from the counts of the report and the room in the queue |
| DraftWriter.Writer.FinishReapply | src/minni/afm_writer.py:1857-1970 | the two together, over the fields of any answer a handler can give |
| WriterObjects.RecoverStep | src/minni/afm_writer.py:1908-1941 | on values: which batch's objects change, and that queue and in-flight table then refer to the right ones for each answer |
| DraftWriter.Writer.ReleaseReapply | src/minni/afm_writer.py:1994-1996 | the re-apply claim is dropped whatever happened |
| DraftWriter.Writer.WaitExpired | src/minni/afm_writer.py:2000-2020 | the section finds in its own `out` what the worker put there through the queue's reference; otherwise it counts, and the flags it writes are those the worker reads |
| DraftWriter.Writer.WaitReturned | src/minni/afm_writer.py:2035-2037 | whoever set the event, the waiter finds an outcome and takes the protocol's step |
| DraftWriter.Writer.GetJob | src/minni/afm_writer.py:1710-1716 | the worker gets the very objects of the oldest batch |
| DraftWriter.Writer.BatchWritten | src/minni/afm_writer.py:1661-1672 | filling the `out` it was handed is the write step: the waiter of that batch, and no other, sees the outcome |
| DraftWriter.Writer.FailureCounted | src/minni/afm_writer.py:1678-1691 | the flags read from the job dictionary decide the count exactly as the protocol does |
| DraftWriter.Writer.ClaimLifecycle | src/minni/afm_writer.py:1526-1578 | by the waiter's flag the worker ends, records the lifecycle for want of a handler, or claims it, and reports which |
| DraftWriter.Writer.LifecycleReported | src/minni/afm_writer.py:1579-1656 | the event is held exactly unless the report says, by its fields, that the lifecycle is done with; then this lifecycle is the entry in memory and on disk, else there is none |
| DraftWriter.Writer.SetEvent | src/minni/afm_writer.py:1696-1698 | setting the event it was handed frees the pass in the in-flight table and wakes that batch's waiter |
| InboxLedger.WrittenExistAtEveryCrash | src/minni/afm_writer.py:1391-1432 | at every crash point each row marked written names an existing page |
| InboxLedger.CoveredAtEveryCrash | src/minni/afm_writer.py:1412-1464 | before the flip every page has its ledger row at every crash point; after it exactly when each page had a row outside the run that is replaced or one the batch carries on, so always when no run of the day carries the batch's key |
| InboxLedger.OnePageAtEveryCrash | src/minni/afm_writer.py:1422-1437 | with distinct page ids, no page id has two pages at any crash point |
| InboxLedger.PagesSurvive | src/minni/afm_writer.py:1422-1437 | no durable step replaces or removes a page |
| InboxLedger.RetryCatchesUp | src/minni/afm_writer.py:1354-1374 | with distinct ids, a retry after a crash leaves the pages of an uninterrupted batch exactly when no row of the ledger gives a draft still to come the path of a draft that had landed |
| InboxLedger.CrashesDoNotChangeThePages | src/minni/afm_writer.py:1377-1468 | any number of crashed attempts and then a completed one leave those pages, exactly when no row gives a draft that lands the path of an earlier one that lands |
| InboxLedger.CrashedPageStaysPending | src/minni/afm_writer.py:1391-1411 | the finished ledger marks a page of a draft's id written exactly when that id does not count as landed on the disk the retry finds; a page the crashed attempt wrote does count |
| InboxLedger.FlipReplacesFirstTwin | src/minni/afm_writer.py:1453-1464 | the flip replaces exactly the first run with our key, or appends |
| InboxLedger.FlipTouchesOnlyOwnRun | src/minni/afm_writer.py:1438-1464 | with runs of others before and after, the flip leaves all of them alone exactly when no earlier run has our trace, time and page ids; if the first that does equals the payload, nothing changes and our run stays pending |
| InboxLedger.FaithfulUnlessPathsCollide | src/minni/afm_writer.py:1422-1437 | after a completed batch every written row names a page of its own id exactly when no two ids compete for a path |
| InboxLedger.DuplicateIdsLandTwice | src/minni/afm_writer.py:1395-1411 | two drafts of one page id land two pages: distinctness is needed |
| InboxLedger.StaleRowLosesADraft | src/minni/afm_writer.py:1354-1374 | with such a row across the crash, the retry skips a draft whose page an uninterrupted batch writes |
| InboxLedger.StaleRowsExist | src/minni/afm_writer.py:1354-1374 | such a ledger and batch exist |
| InboxLedger.PathsCanCollide | src/minni/afm_writer.py:1422-1437 | two ids that ask for one path exist: the second draft is nowhere and its row says written |
| InboxLedger.PathGoesToClaimant | src/minni/afm_writer.py:1422-1437 | the landing loop gives each path to the page already there, else to the first eligible draft that asks |
| InboxLedger.Vault.LandedRecords | src/minni/afm_writer.py:1354-1374 | the map of landed records holds, per page id, its landed record |
| InboxLedger.LandedIsLast | src/minni/afm_writer.py:1354-1374 | that is the last row of all runs that names a page of the id on disk; a blank id has none |
| InboxLedger.Vault.Plan | src/minni/afm_writer.py:1393-1411 | the planned and pending rows are those of the final and the committed run |
| InboxLedger.Vault.FlipRows | src/minni/afm_writer.py:1438-1468 | the last loop computes the flip |
| InboxLedger.Vault.WriteBatch | src/minni/afm_writer.py:1377-1468 | a process that dies after any number of durable steps leaves the disk of that crash point, on the wiki as the expiry sweep leaves it; if the ledger does not load at the flip, the final run goes behind the runs read at the start |
| DraftExpiry.SettleEffect | src/minni/afm_writer.py:1304-1308 | one rewrite changes the first draft line of the frontmatter and nothing else; id, stamp and everything after the block stay, and the draft ends exactly when it had one draft line |
| DraftExpiry.RaceIsSafe | src/minni/afm_writer.py:1248-1309 | in every interleaving a page leaves `draft` exactly when a thread won it, a page with an id is won once, carries its winner's status, and is expired only past the stamp it has at that moment |
| DraftExpiry.WinnersDoAsAsked | src/minni/afm_writer.py:2154-2197 | the winner of a page is a thread that searched for it, and the page has the status that its decision means, or one that scanned it, and the page is expired |
| DraftExpiry.SweepCountsItsFlips | src/minni/afm_writer.py:1284-1309 | in every interleaving, the number of pages with an id that any set of threads counts as expired is the number of such pages their writes turned from drafts into something else |
| DraftExpiry.SettledPagesAreFrozen | src/minni/afm_writer.py:2180-2200 | an accepted, rejected, edit-requested or expired page never changes again |
| DraftExpiry.StepKeeps | src/minni/afm_writer.py:1277-1308 | every scan, lock, write and re-stamp keeps the race invariant |
| DraftExpiry.IdlessPageCountedTwice | src/minni/afm_writer.py:1284-1285 | a page without an id, which has no lock, can be counted by two sweeps |
| DraftExpiry.Wiki.ExpireStaleDrafts | src/minni/afm_writer.py:1248-1309 | whatever the unlocked reads saw and others did before each lock, the count is the number of locked sections that flip a page, and each section writes only such a flip |
| DraftExpiry.UndisturbedSweep | src/minni/afm_writer.py:1248-1309 | undisturbed, the sweep settles exactly the listed pages past their stamp |
| DraftExpiry.Wiki.SweepPage | src/minni/afm_writer.py:1258-1308 | one page is flipped exactly when both reads, before the lock and under it, find closed frontmatter with a draft line, the line of the agent, and a first stamp before the time of the sweep; a failed read leaves it alone |
| DraftExpiry.ExpirableExactly | src/minni/afm_writer.py:1264-1279 | the gates of the sweep say just that |
| DraftExpiry.PageIdExactly | src/minni/afm_writer.py:173-180 | the id of a page is the first one its closed frontmatter says |
| DraftExpiry.SweptPageIsTwoSteps | src/minni/afm_writer.py:1284-1308 | that section is the lock and the write of the race |
| DraftExpiry.Wiki.EndorseDraft | src/minni/afm_writer.py:2154-2197 | the target is the first page the search saw with the id; identity and status are judged on the page found under the lock; every error leaves the wiki alone, any decision but accept, reject and edit is one, and success turns the first draft line of the target into accepted, rejected or edit_requested and touches nothing else |
| DraftExpiry.EndorsedPageIsTwoSteps | src/minni/afm_writer.py:2175-2197 | that section is the lock and the write of the race |
| TokenGroups.SplitListByTokenBudget | src/minni/afm_chunking.py:131-153 | the loop computes the greedy grouping |
| TokenGroups.PackDivides | src/minni/afm_chunking.py:141-153 | the groups are consecutive, not empty, and each fits or is one item |
| TokenGroups.PackIsOptimal | src/minni/afm_chunking.py:141-153 | from any state of the loop, no division of what is left needs fewer groups |
| TokenGroups.GreedyGroupingIsOptimal | src/minni/afm_chunking.py:131-153 | the groups give the items back in order, every group of two or more fits, and no division into consecutive groups is shorter, for every list but the empty one |
| AfmChunking.SplitText | src/minni/afm_chunking.py:74-128 | the window loop computes the pieces, for every chunk size and overlap |
| AfmChunking.SnappedWindow | src/minni/afm_chunking.py:101-119 | one turn of the loop computes the snapped window |
| AfmChunking.WindowIsInterval | src/minni/afm_chunking.py:101-119 | the words taken from the look-ahead text extend the window to an interval of the words, of bounded length |
| AfmChunking.SnapsToFirstSentence | src/minni/afm_chunking.py:108-119 | the window is extended to the first word of the look-ahead, the last one left out of account, that ends a sentence, and by nothing if there is none |
| Words.CutAtSpace | src/minni/afm_chunking.py:114-117 | cutting joined words at a sentence end and splitting again gives whole words back |
| AfmChunking.PiecesCover | src/minni/afm_chunking.py:74-128 | the pieces are intervals of the words, in order, that leave none out; none starts behind the point reached, or further in front of it than the overlap and the look-ahead |
| AfmChunking.SplitsLoseNothingExactly | src/minni/afm_chunking.py:94-128 | for every chunk size and overlap, this holds for all texts and tokenizers exactly if the chunk size is positive and the overlap not negative |
| AfmChunking.LossySplit | src/minni/afm_chunking.py:94-128 | any other pair loses the last word of some text |
| AfmChunking.EffectiveOverlap | src/minni/afm_chunking.py:164-178 | the clamped overlap is the smaller of the overlap and a quarter of the chunk, never negative, so the step is three quarters of the chunk or more |
| AfmChunking.PieceCount | src/minni/afm_chunking.py:164-178 | that bounds the number of pieces of a split by the length of the text |
| AfmChunking.ChunkAndCallInOrder | src/minni/afm_chunking.py:181-233 | the recursive calling computes, request by request, the specified results, and terminates whatever overflows |
| AfmChunking.CallPiecesInOrder | src/minni/afm_chunking.py:212-233 | so does its loop over the pieces |
| AfmChunking.ResultsAreKept | src/minni/afm_chunking.py:181-233 | the results are the requests made, in their order, without the pieces that overflowed above the floor; every request is answered under its own number and for its own text; at least one result is returned |
| AfmChunking.RequestsAreExplained | src/minni/afm_chunking.py:212-233 | every request is about the text or a piece of its first split into several, or asks again about a text whose request overflowed above the floor, as that text's first split at half the size or whole; and every such overflow is followed by one that does |
| AfmChunking.PiecesAreAsked | src/minni/afm_chunking.py:195-213 | the pieces of the first split into several are all asked about, in order, and nothing else is at that size |
| AfmChunking.OneSplitIsEnough | src/minni/afm_chunking.py:181-233 | if no request overflows above the floor, the results are the requests, one for each piece of that split in order, or a single one about the whole text |
| AfmChunking.FirstIsFirst | src/minni/afm_chunking.py:195-209 | that split is the first with several pieces among the sizes halved down to the floor; without one, no number of halvings gives one |
| AfmChunking.ChunkingLosesNothing | src/minni/afm_chunking.py:181-233 | whichever requests overflow, the texts behind the results are intervals of the field's words, in order, that leave none out, and none starts further back than the overlap and the look-ahead of the first split |
| AfmChunking.OverflowIsResolved | src/minni/afm_chunking.py:212-233 | if the model never overflows on texts of floor size, no result is an overflow |
| AfmChunking.CallChunkedCoversTheField | src/minni/afm_chunking.py:236-288 | chunked or not, the results cover the field in that order; a payload is chunked exactly when it is over budget or its request overflows, and the rest of it fits; unchunked there is one result, about the field as it stands; apart from a first request that overflows, the results are the requests without the pieces that overflowed above the floor |
| AfmChunking.ChunkedFieldIsAskedInPieces | src/minni/afm_chunking.py:286-288 | a chunked field is asked about as the pieces of its first split, and every further request answers an overflow |
| AfmChunking.ChunkSize | src/minni/afm_chunking.py:264-286 | the size is the largest within the one wanted and the room left, but never below the floor |
| AfmChunking.NoWordIsLost | src/minni/afm_chunking.py:236-288 | every word of the field is, at its place, in the text of some result |
| WordIntervals.CoversWithin | src/minni/afm_chunking.py:222-231 | what covers a piece covers that piece's interval of the whole, from any point reached that is at most the slack behind its start |
| WordIntervals.CoversOnward | src/minni/afm_chunking.py:211-233 | covers that meet combine |
| BenjaminiHochberg.OrderRanks | bench/membench/stats.py:120-121 | sorting the indices lists each once, by ascending p-value |
| BenjaminiHochberg.RunningMinima | bench/membench/stats.py:122-130 | the downward walk computes, per rank, the least of 1 and p times m over rank from there on |
| BenjaminiHochberg.Scatter | bench/membench/stats.py:131-135 | the values return to the order of the input |
| BenjaminiHochberg.Adjust | bench/membench/stats.py:107-135 | the whole computation, for every list |
| BenjaminiHochberg.RankMinIsLeast | bench/membench/stats.py:124-130 | a value is at most each later raw value and 1, and equals one of them |
| BenjaminiHochberg.RankMinAdjusts | bench/membench/stats.py:107-135 | the ranked computation equals a definition without ranks, ties included |
| BenjaminiHochberg.AdjustedValues | bench/membench/stats.py:107-135 | for p-values in [0, 1] the adjusted values lie between the p-value and 1 and are ordered like the p-values |
| BenjaminiHochberg.AdjustmentPermutes | bench/membench/stats.py:107-135 | rearranging the family rearranges the values with it; ties get equal values |
| BenjaminiHochberg.SignificantIsStepUp | bench/membench/stats.py:237-241 | below a level of at most 1 lie exactly the hypotheses the step-up procedure rejects |
| BenjaminiHochberg.MarkSignificant | bench/membench/stats.py:236-254 | a comparison is significant exactly when its adjusted value is below the level and the means differ; its winner has the larger mean |
| RankingMetrics.NdcgAtK | bench/membench/metrics.py:143-165 | the two sums and their quotient, with the error for an empty gold set |
| RankingMetrics.ReciprocalRank | bench/membench/metrics.py:168-180 | one over the rank of the first relevant document, or 0 |
| RankingMetrics.DcgBounds | bench/membench/metrics.py:155-160 | a list gains at most what its hits would gain at the top, and as much exactly when they are there |
| RankingMetrics.HitIsWorthItsRank | bench/membench/metrics.py:155-158 | whatever else is in the list, a relevant document gains what its rank is worth, and an irrelevant one nothing |
| RankingMetrics.NoHitsNoGain | bench/membench/metrics.py:155-158 | a list without hits gains nothing |
| RankingMetrics.NdcgIsNormalised | bench/membench/metrics.py:143-165 | for a list without duplicates and any positive, decreasing discount the score is in [0, 1], and 1 exactly when the first min(k, gold) results are relevant |
| RankingMetrics.DuplicatesExceedOne | bench/membench/contract.py:267-275 | a relevant document listed twice scores above 1: the duplicate check is needed |
| RankingMetrics.PrecisionTimesK | bench/membench/metrics.py:114-140 | precision times k and recall times the size of the gold set are both the number of relevant documents at the first k ranks, each counted once |
| RankingMetrics.ScoresAgreeOnAHit | bench/membench/metrics.py:114-180 | the four scores are positive together, exactly when something relevant was found |
| RankingMetrics.AssertRankedWellFormed | bench/membench/contract.py:261-281 | the check passes exactly the lists without duplicates, of known ids, within the limit |
| Backfill.BatchCursors.FetchPass | src/minni/backfill.py:386-399 | a pass takes the batch from its own queue's cursor, from the start if the queue has none, and moves only that cursor, to its last row or to 0 |
| Backfill.BatchFacts | src/minni/backfill.py:90-98 | a pass takes the eligible rows from its start to its new cursor: all that are left, or as many as the limit |
| Backfill.PassBringsCloser | src/minni/backfill.py:386-399 | each pass that does not attempt a row brings it one pass closer |
| Backfill.NoRowStarves | src/minni/backfill.py:76-98 | from any cursor, a row that stays eligible is attempted within eligible / limit passes, rounded up, and one more, whatever fails for good or leaves in the meantime |
| Backfill.AheadIsReached | src/minni/backfill.py:90-98 | a row ahead of the cursor is attempted within as many passes as ids lie between, whatever arrives and leaves |
| Backfill.WrapReaches | src/minni/backfill.py:94-97 | after a pass that wraps, every row that stays is attempted within as many passes as its id |
| Backfill.NothingBehindBeforeWrap | src/minni/backfill.py:90-98 | until a pass wraps, the cursor only moves on and no row at or behind it is taken |
| Backfill.AttemptedExactly | src/minni/backfill.py:90-98 | whatever arrives and leaves, a row that stays is attempted at some pass exactly when it lies ahead of the cursor or some pass finds nothing left ahead of the cursor |
| Backfill.FinitelyManyArrivals | src/minni/backfill.py:493-511 | if only finitely many rows ever come and go, that happens within one pass per row |
| Backfill.WaitAmongIsBounded | src/minni/backfill.py:493-511 | that is at most the number of such rows |
| Backfill.SteadyArrivalsStarveTheHead | src/minni/backfill.py:90-98 | with a new row after the cursor before every pass, a row behind it is never attempted, whatever the limit |
| Backfill.OnlyPositiveIds | src/minni/backfill.py:92-93 | rows whose id is not positive are never attempted |
| Scheduler.AFMScheduler.DuePass | src/minni/afm_scheduler.py:41-60 | the pass chosen is the most overdue, the larger name first among equals; there is one exactly when the gates are open and some pass has waited for its interval |
| Scheduler.AFMScheduler.Tick | src/minni/afm_scheduler.py:62-68 | a tick runs that pass, unless its name is empty, and stamps it with the time it is done; nothing else changes |
| Scheduler.RunningFallsBehind | src/minni/afm_scheduler.py:52-67 | a pass that runs while another is due was ahead of it, and is not any more |
| Scheduler.OthersRunOnce | src/minni/afm_scheduler.py:41-68 | while a due pass waits, each other pass runs at most once |
| Scheduler.BoundedWaiting | src/minni/afm_scheduler.py:41-68 | with positive intervals and a clock that does not go back, a due pass runs within as many productive ticks as there are passes |
| Scheduler.OpenTickRuns | src/minni/afm_scheduler.py:62-65 | with the gates open and something due, a tick runs nothing exactly when the most overdue pass has the empty name |
| Scheduler.DuePassRuns | src/minni/afm_scheduler.py:62-68 | so without that name a due pass runs within as many open ticks as there are passes |
| Scheduler.EmptyNameStopsTheLoop | src/minni/afm_scheduler.py:62-65 | with that name due, fewer passes ever run again than are configured |
| Scheduler.ZeroIntervalStarves | src/minni/afm_scheduler.py:52-56 | an interval of zero and a clock that stands still starve a due pass: positivity is needed |
| Scrub.KeepLongest | bench/membench/scrub.py:328-336 | the greedy selection computes the chosen spans |
| Scrub.ScrubText | bench/membench/scrub.py:313-351 | selection and rebuilding compute spans and output |
| Scrub.ChosenFacts | bench/membench/scrub.py:313-336 | chosen spans do not overlap and come in order, and every match left out overlaps a chosen one that is longer, or as long and earlier, or of the same place and a class named no later |
| Scrub.ScrubReplacesExactly | bench/membench/scrub.py:338-351 | the output is the text with exactly the chosen spans replaced, recoverable from spans and removed pieces, and its length is accounted for exactly when none of the matches is empty and at the start of a chosen span that is not |
| Scrub.EmptyMatchIsChosen | bench/membench/scrub.py:328-336 | nothing longer pushes such a match aside: it is chosen as well |
| Scrub.EmptyMatchRepeatsText | bench/membench/scrub.py:340-351 | such a match makes the redacted text come out behind its replacement |
| StableSort.SortIsStable | bench/membench/scrub.py:328-336 | sorting keeps the order of elements that are level |
| DocRename.CandidateIsInjective | bench/membench/scrub.py:440-448 | different tries give different names |
| DocRename.CandidateKeepsExtension | bench/membench/scrub.py:437-448 | a derived name is the id with the digest, and from the second try on a number, in front of its extension |
| DocRename.FreeCandidate | bench/membench/scrub.py:435-449 | the suffix search ends with the first free name, after no more tries than there are ids |
| DocRename.PickName | bench/membench/scrub.py:431-449 | a file gets its scrubbed id exactly when it is free, and otherwise the first derived name that is |
| DocRename.Corpus.RenameScrubbed | bench/membench/scrub.py:426-462 | every file keeps its content under an id of its own; exactly the files whose id scrubs differently move, each to the name that was to be picked at its turn, when the ids in use are the original ones of files still to come and the new ones of those before it |
| DocRename.UncontestedIdIsUsed | bench/membench/scrub.py:431-449 | a scrubbed id that no file has at the start, and that no earlier file scrubs to or is derived to, is used as it is |
| DocRename.MoveOne | bench/membench/scrub.py:450-454 | one rename to a free id loses no file and keeps ids distinct |
| DocRename.FileCountIsKept | bench/membench/scrub.py:410-462 | the number of files is kept and the map of renames is injective |
| DocMarker.EncodeRoundTrip | bench/bisect_harness.py:96-104 | decoding an encoded id gives the id, for every string |
| DocMarker.EncodedHasNoDelimiter | bench/bisect_harness.py:96-100 | an encoding holds no bracket and no newline, and is empty only for the empty id |
| DocMarker.MarkContent | bench/bisect_harness.py:107-123 | the marker and a space go in front of the first body line, or the marker and an empty line before everything |
| DocMarker.StampKeepsText | bench/bisect_harness.py:114-120 | apart from the marker, stamping drops only white space in front of the body line |
| DocMarker.MatchExactly | bench/bisect_harness.py:93-93 | the marker pattern matches at the start of a text exactly the prefix, one or more characters that are neither bracket nor newline, and a bracket |
| DocMarker.SearchIsFirst | bench/bisect_harness.py:130-130 | the search yields the first match |
| DocMarker.DocIdFromContent | bench/bisect_harness.py:126-134 | an id is read back exactly if the first match decodes to a valid one |
| DocMarker.SearchPastLead | bench/bisect_harness.py:130-132 | what a search finds first when a marker follows a lead: a marker closed in the lead, one left open in it, or the marker |
| DocMarker.MarkedIdComesBack | bench/bisect_harness.py:107-134 | a valid id is read back from the stamped text exactly when the lines before the body hold no marker of their own or one naming the same id; in particular when they do not mention the prefix |
| DocMarker.HeadingMarkerWins | bench/bisect_harness.py:107-134 | a heading that holds another valid id's marker is read back in place of the stamped id, exactly from the documents with a body line behind it |
| AtomicBlocks.SplitAtomicBlocks | src/minni/chunker.py:208-259 | the loop computes the blocks |
| AtomicBlocks.Kept | src/minni/chunker.py:259-259 | the final filter keeps the blocks that are not blank |
| AtomicBlocks.BlocksDivideTheText | src/minni/chunker.py:208-259 | the blocks are stretches of lines: a fence up to the next one, or lines from one that is not blank to a fence, to a blank line before which the block has no list item, or to the end; between them there are only blank lines |
| AtomicBlocks.DivisionIsUnique | src/minni/chunker.py:208-259 | only one division of the lines is like that |
| AtomicBlocks.StaysTogether | src/minni/chunker.py:240-256 | outside code, the next line that is neither blank nor a fence is in the same block exactly if it follows at once or some line of the block so far is a list item |
| AtomicBlocks.PlainTextSplitsIntoRuns | src/minni/chunker.py:240-259 | a text without fences and list items is split into exactly its maximal runs of lines that are not blank |
| AtomicBlocks.BlocksKeepLines | src/minni/chunker.py:208-259 | the lines of the blocks that are not blank are those of the text, each once and in order |
| AtomicBlocks.ClosedFenceIsOneBlock | src/minni/chunker.py:222-233 | an opening fence, its lines and its closing fence are one block, at its place among the others |
| AtomicBlocks.FencesAreNotCut | src/minni/chunker.py:222-259 | so the text of a closed fence is one of the blocks, and an open one runs to the end as one |
| MarkdownChunker.SnappedSize | src/minni/chunker.py:312-350 | snapping never shortens a window, never leaves the words, and lengthens it only up to half the look-ahead |
| MarkdownChunker.WindowEndsExactly | src/minni/chunker.py:278-291 | a window has what is left of the chunk size and the cap; only prose, and only if the configuration snaps, is extended to the last word that ends a sentence within the limits |
| MarkdownChunker.SnapsToLastSentence | src/minni/chunker.py:330-350 | what that word is, for every window, overlap and text |
| MarkdownChunker.SlidingWindowRaw | src/minni/chunker.py:269-310 | the loop computes the chunks |
| MarkdownChunker.ChunksAreMarked | src/minni/chunker.py:293-305 | every chunk has at least one word and the minimum, says whether it is code, and is marked truncated exactly if it has as many words as the cap |
| MarkdownChunker.LongTextsKeepEveryWord | src/minni/chunker.py:278-310 | a text longer than a chunk keeps every word, in order and with a bounded step back, every window is kept, and the chunks are numbered in turn |
| MarkdownChunker.LosslessExactly | src/minni/chunker.py:278-310 | for every configuration, of prose and of code, no long text loses a word exactly when the overlap is not negative, the chunk is positive and fits the cap, and the minimum is at most the chunk and the overlap plus one |
| MarkdownChunker.LossyLosesAWord | src/minni/chunker.py:284-308 | any other configuration drops the last word of some text |
| MarkdownChunker.DefaultsAreLossless | src/minni/chunker.py:60-68 | the default sizes meet the conditions |
| MarkdownChunker.SnapMovesExactly | src/minni/chunker.py:324-350 | snapping can move a window's end exactly when the window is shorter than half the look-ahead |
| MarkdownChunker.LongWindowsNeverSnap | src/minni/chunker.py:324-350 | with chunks at least that long every window keeps its plain length |
| MarkdownChunker.DefaultsNeverSnap | src/minni/chunker.py:60-68 | at the default sizes snapping changes nothing |
| MarkdownChunker.FilterAndFinalize | src/minni/chunker.py:361-374 | the chunks with enough tokens stay, in order, renumbered from 0 in place; the others are not touched |
| MarkdownChunker.LargeKeepsOrder | src/minni/chunker.py:361-374 | each chunk is kept or left out by its own tokens, between what is kept of those before and behind it |
| JudgeGate.ChanceAgreement | bench/membench/judge.py:287-292 | the sum over the labels, in any order, is the share of equal pairs |
| JudgeGate.ComputeCohenKappa | bench/membench/judge.py:270-298 | kappa as a quotient of counts, with both errors and the degenerate case |
| JudgeGate.KappaBounds | bench/membench/judge.py:270-298 | chance agreement is at most 1 and kappa is at most 1, and 1 exactly on full agreement over more than one label |
| JudgeGate.KappaAtLeastMinusOne | bench/membench/judge.py:270-298 | kappa is never below -1, whatever labels are used |
| JudgeGate.ConstantRaterScoresZero | bench/membench/judge.py:294-298 | a rater with a single label scores 0 against every labelling of every length |
| JudgeGate.CalibrateJudge | bench/membench/judge.py:324-360 | the measurement: passed exactly when all three thresholds clear |
| JudgeGate.AssertPublishable | bench/membench/judge.py:363-420 | the gate returns exactly when the configuration is valid and the measurement passed, and names the first check that failed |
| JudgeGate.ConstantRaterNeverPasses | bench/membench/judge.py:410-419 | with a positive kappa threshold no constant rater passes |
| JudgeGate.PerfectJudgePasses | bench/membench/judge.py:363-420 | a judge that agrees throughout passes exactly when it saw enough pairs of more than one label |

## Left out

- Several vaults with one pass name, sidecar writes that fail and the per-pass fragments they leave, and `wait=False` submits: the in-flight and no-second-set claims are meant for one vault and a sidecar that can be written.
- The caller's own apply belongs to the compile request, not to the writer: it is a step of the protocol without a method.
- The submit section is one step; in the source the worker may take a batch before that section ends, which changes nothing a step can see because the section still holds the lock.
- Apply-failure and write-failure counters, their time stamps, audit lines and status derivation: counted in one place each and read by nobody in the protocol.
- The unreadable sidecar appears only as a submit or status call that finds it so; what a person does about it does not.
- Real files, symbolic links, escape checks, temporary names and file modes: a vault is a map whose entries are replaced atomically.
- InboxLedger.Vault.WriteBatch: the expiry sweep at its start is given by the wiki it leaves, which has the same pages and ids; a ledger that does not load at the start of a batch fails it before anything is written, and pages or rows edited by others inside a batch are not modelled.
- A retry on another day, which reads another ledger: crashed attempts and their retry share one.
- The frontmatter patterns are line classes; a pattern whose white space spans a newline is not modelled, nor is YAML, and time stamps are integers.
- External writers of a page inside the critical section of expiry or endorsement; a re-stamp happens between sections.
- `_audit`, gate and quality fields of a rendered draft: a draft is its page id, path, body and whether it is refused as forged.
- `reduce_via_same_op` and the folding of chunk results: its recursion depends on the model's answers getting shorter.
- Configurations of the Markdown chunker with a negative chunk size or cap: no caller passes them and Python's negative slices would apply.
- How the estimated size of a payload follows from its serialisation: it is an arbitrary function of the text field.
- Starts are not monotone across re-splits, because a sub-piece of one window may start behind the next window; the order of results is stated as coverage with a bounded step back.
- Headings, sections and breadcrumbs of the Markdown chunker, truncation of long code blocks and the semantic merge; which lines start a list item is a parameter.
- SQL predicates of the backfill: the eligible ids of a pass are given; encoding, statistics and index refresh do not matter to the cursors.
- The scheduler's thread, a pass that raises, and configuration changes while it runs.
- Wilcoxon's test, confidence intervals and the other rates of the benchmark; negative `k` in the ranking scores.
- Floating-point rounding: all scores are exact reals.
- Finding the redaction matches, the scrubbing of a doc-id and its digest: they are parameters. A rename onto a path that is a directory, or below a file, is not modelled, nor is pruning of empty directories.
- The API budget, the judges themselves and the loading of fixtures.
