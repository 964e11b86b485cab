# Usage-detail export: model and proofs

The backend exports call records ("usage detail") of a New API site.  It fetches them
through a paged, rate-limited upstream, keeps them in a local database day by day, and
writes them into spreadsheet files.  This project models that pipeline and the
coordination protocols around it, and proves what they promise.

- **Segmented fetch** (`SegmentFetch`, `SegmentLaws`, `Segments`, `CollectLaws`, `CollectRows`,
  `RequestBound`, `CollectLoop`, `CollectTheorems`).  The window is cut into days; rounds of
  parallel probes bisect segments that are too large and page the others.  The upstream is an
  arbitrary oracle: the answer to call `n` of segment fetch `g` is any function of `g`, `n` and
  the request.  What holds for every oracle therefore holds for every upstream and every
  interleaving of the parallel fetches.  For honest totals, completeness follows by counting; for
  a faithful upstream, also one that fails now and then, the loop is the recursive
  bisect-or-fetch, which is the plain ordered select; when every call is answered at once, the
  requests are bounded as well.
- **Incremental sync** (`LocalStore`, `Watermark`, `DayFetch`, `DaySync`, `SyncLedger`).  Each day carries a
  watermark that promises rows.  Marking keeps the promise although rows may be written up to 300
  seconds late, and so does every history of syncs that succeed, fail, are cancelled or come up
  short anywhere.  The sync itself is proved to be such a history.  Prunes run beside it, statement
  by statement, and which of their interleavings a history bears is settled exactly.
- **Local reading and files** (`LocalStream`, `Xlsx`, `Export`).  A keyset-paged scan hands every
  selected row once, in order, to a rotating writer, whose files partition the rows.  Together:
  the exported files are exactly the upstream rows of the window.
- **Throttle** (`Throttling`, `ThrottleLaws`, `Wrapped`), in nanoseconds, over all interleavings of
  the goroutines that share it.
- **Summary cache** (`SingleFlight`, `FlightSystem`): every interleaving of calls, builds, waiters,
  delayed deletions and invalidations.
- **Export job and sync gate** (`ExportJob`): every interleaving of job, timers, cancellation and
  background sync.
- **Totals** (`Aggregation`, `Summaries`, `SummaryBuild`): conservation from rows through users to the summary.

`Cst` is the UTC+8 calendar, `LogRows` the rows, their order, and listings, `Basics` what all share.

Classes mirror the Go structs whose fields are changed in place.  Their methods are proved against
functions on an immutable view of the object, and the laws are lemmas about those functions.
Every block under a mutex is one atomic step.

## Assumptions

They are preconditions of the theorems that need them, and in the methods' contracts hypotheses of
single clauses.  Only the methods of `Wrapped` require theirs, the last one below.

- True totals (`SegmentLaws.CountHonest`): while one segment is paged the upstream does not change,
  reports the true number of matching rows, and returns only matching rows; log ids are unique and
  not zero.  Pages may overlap, repeat, come in any order or fail.
- Faithful paging (`SegmentLaws.Tolerates`), for success only: a static log, pages that are slices of
  one enumeration, of any length, and calls that fail at most twice in a row, not with a 429 and under
  a live context.  For the request bounds (`SegmentLaws.Serves`): pages of 100 rows and no failure.
- A growing log (`CollectRows.Observes`): rows are only added, and become visible at most 300
  seconds after their time.
- A fixed rate and a clock that does not run backwards (`Wrapped.Fair`), for bounded retries.

## What the code does not keep

Some statements that the code or its comments suggest fail, and each has its exact condition here.

- A day without a watermark counts as synced until second 0, so a first sync fetches a day as a
  whole exactly when it is day 1 of the epoch or later (`Watermark.UnknownDayIsFetchedWhole`).
- `Prune` takes no gate (backend/internal/api/scheduler.go:32, backend/internal/api/detailsync.go:145)
  and deletes rows batch by batch and the watermarks last.  A sync that runs at the same time can
  declare a day complete without its rows: when the prune runs between the last INSERT of a day and
  its watermark update (`SyncLedger.PruneDuringSync`, reached by `SyncLedger.LatePrune`), and when the
  sync begins between the two kinds of deletion and still reads a watermark whose rows are gone
  (`SyncLedger.SyncDuringPrune`).  A state is safe when it stores, and no prune under way is about to
  delete, every row that a watermark promises or a pending day counts on without storing it again.
  It stays safe exactly when a prune begins only while no pending day counts on rows before its
  cut-off, and a sync plans and stores without coming to count on such rows while a prune deletes
  them (`SyncLedger.StepIsExact`, `SyncLedger.HarmIsExact`).  Days from the cut-off on are never in
  danger (`SyncLedger.CarefulHistoryIsSound`).
- A prune that fails on the way leaves watermarks without rows.  It is harmless exactly when no
  watermark promises a deleted row (`SyncLedger.HalfPruneIsSound`); seen from the watermarks alone,
  exactly when none of an earlier day is complete or more than 300 seconds past the day's start
  (`SyncLedger.HalfPruneForEveryStore`, broken by `SyncLedger.LateHalfPrune`).
- "At most N requests per minute" (backend/internal/detail/throttle.go:44) holds for all histories
  at a fixed rate from 5 to 300 exactly when N divides the minute in nanoseconds; otherwise rounding lets N+1 in
  (`ThrottleLaws.PerMinutePromise`).
- "Any two manual recomputations of the whole site are 2 minutes apart" (backend/internal/usage/service.go:17)
  is kept, after any history, exactly by calls whose key is cached
  (`FlightSystem.CooldownHoldsExactlyForCached`): a refresh of a key that is not cached is let through
  at once, also right after another one (`FlightSystem.UncachedRefreshesHappen`).
- The groups of a summary add up to its total exactly when no user is below zero
  (`Summaries.GroupsConserve`).
- When the site's statistics disagree with the rows, the users' quotas are overwritten but their days
  and models are not.  A summary that reports agreement with the site therefore adds up exactly when
  that fallback was not taken (`SummaryBuild.Build`, `SummaryBuild.ReachedGoalBreaksSums`, reached by `SummaryBuild.GoalIsReached`
  and `SummaryBuild.GoalBreaksSums`).

A sync that reports incomplete days does not stop an export: `runDetail` ignores the list, and the
files then hold what the store has.  `Export.RunDetail` states both cases.

## Model

| member | source | states |
|---|---|---|
| `Cst.DayBounds` | backend/internal/usage/period.go:31-32 | a second belongs to a UTC+8 day if and only if it lies between that day's first and last second |
| `Cst.DaysBeginAtMidnight` | backend/internal/usage/period.go:31-32 | days begin at 16:00 UTC, and 1970-01-01 is day 0 |
| `Cst.DayEndIsLast` | backend/internal/detail/detail.go:145-150 | `dayEnd` is the last second of the same day; the next second starts the next day |
| `LogRows.SortRowsSorted` | backend/internal/detail/detail.go:220-225 | the stable sort on (created_at, id) yields a sorted sequence |
| `LogRows.SortRowsStable` | backend/internal/detail/detail.go:220-225 | rows of one time and id, such as those without an id, keep their order |
| `LogRows.OrderedIs` | backend/internal/detail/local.go:156-157 | there is only one strictly ordered listing of a set of rows, so every listing equals the ordered select |
| `LogRows.SplitWindow` | backend/internal/detail/detail.go:294-296 | cutting a window in two cuts its ordered rows in two, in order and count |
| `SegmentFetch.Retry` | backend/internal/detail/detail.go:155-168 | the first page answered within three calls, after failures that are no 429 under a live context, is the answer; it fails only at a 429, under a done context, or after three calls; and the calls are counted one by one |
| `SegmentFetch.RetryNeverRepeatsRateLimits` | backend/internal/detail/detail.go:155-168 | at most three calls; every call before the last failed, not with a 429 and not under a done context; the answer is that of the last call, or the context ended after it |
| `SegmentFetch.AddItems` | backend/internal/detail/detail.go:183-193 | de-duplication through the `seen` set is absorption by id, and `seen` stays the set of non-zero ids present |
| `SegmentFetch.AbsorbKeepsDistinct` | backend/internal/detail/detail.go:185-193 | absorbing a page never repeats a non-zero id and adds no foreign row |
| `SegmentFetch.AbsorbKeepsNew` | backend/internal/detail/detail.go:185-193 | it keeps the rows and appends, in order, exactly the items without an id and those whose id is new |
| `SegmentFetch.FetchSeg` | backend/internal/detail/detail.go:171-227 | the probing, paging and sorting method meets its specification function, makes exactly the calls that it counts, and counts a short segment |
| `SegmentLaws.AnyUpstream` | backend/internal/detail/detail.go:171-227 | whatever the upstream does, the rows are in order, repeat no non-zero id, each was returned by a call that this very fetch made, and every row so returned is there, itself or by its id |
| `SegmentLaws.PagesInTurn` | backend/internal/detail/detail.go:194-212 | whatever the upstream does, pages are asked for in turn, again after a failure; a segment is short only when the last call returned an empty page or asked beyond all pages that the first one announces |
| `SegmentLaws.FetchFails` | backend/internal/detail/detail.go:155-206 | a segment fetch fails only with the fault of its own last call, or because the context ended after it; and only at a 429, under a done context, or after three failed calls for one page |
| `SegmentLaws.EnoughRowsAreAllRows` | backend/internal/detail/detail.go:200-215 | distinct matching rows are as many as the matching rows if and only if they list all of them |
| `SegmentLaws.CompleteByCounting` | backend/internal/detail/detail.go:180-226 | with true totals and any paging, a segment is not counted as short if and only if its rows are all matching rows, in order |
| `SegmentLaws.ExactFetch` | backend/internal/detail/detail.go:180-226 | against a faithful upstream a segment is cut iff it has more than `cap` rows and two seconds, and else takes one call per page |
| `SegmentLaws.TolerantFetch` | backend/internal/detail/detail.go:155-226 | the same rows and the same split from an upstream that serves pages of any length and fails no page three times in a row, with at most three times the calls |
| `LocalStore.Local.Upsert` | backend/internal/detail/local.go:35-69 | batches of 200: exactly the items before the first batch whose INSERT fails are written, later items overwriting earlier ones, items without id skipped, and a batch without ids sends nothing |
| `LocalStore.WrittenIs` | backend/internal/detail/local.go:35-69 | what is written are the batches of 200 before the first one whose statement fails, one statement for each batch with an id |
| `LocalStore.LastItemWins` | backend/internal/detail/local.go:34-69 | of several items with one id the last one is stored |
| `LocalStore.OthersStay` | backend/internal/detail/local.go:34-69 | entries that no item names are untouched |
| `LocalStore.UpsertIdempotent` | backend/internal/detail/local.go:34-69 | writing rows again that the table already holds changes nothing |
| `LocalStore.UpsertFromLog` | backend/internal/detail/local.go:34-69 | writing upstream rows loses no row of the table and stores each of them |
| `LocalStore.Local.DayState` | backend/internal/detail/local.go:72-88 | the watermarks of the days of the range and no others |
| `LocalStore.Local.MarkDay` | backend/internal/detail/local.go:91-99 | the watermark becomes the greater of old and new; nothing else changes |
| `LocalStore.Local.Prune` | backend/internal/detail/local.go:202-217 | a completed prune keeps exactly the rows and watermarks from the cut-off on, after one statement per full batch, one for the rest and one for the watermarks; it stops at the first statement that fails, with all watermarks and every later row |
| `Segments.InitialSegments` | backend/internal/detail/detail.go:123-140 | the nested loops produce every target's days, oldest first |
| `Segments.SegmentPerDayAndTarget` | backend/internal/detail/detail.go:123-140 | one segment for each target and day that the window meets |
| `Segments.DefaultLimits` | backend/internal/detail/detail.go:49-68 | a limit that is not positive becomes 5000 rows, 3 fetches or 2,000,000 rows |
| `Segments.PickUndone` | backend/internal/detail/detail.go:259-266 | the indices are the first `conc` unfinished segments, in order, and those are the segments that the round fetches |
| `Segments.FetchAll` | backend/internal/detail/detail.go:267-276 | the array holds at k the outcome of fetching the k-th picked segment, and the counters of calls and short segments have grown by what these fetches made |
| `Segments.ByIndex` | backend/internal/detail/detail.go:277-287 | every result lands at its list index, or the first failed one in list order is reported |
| `Segments.Rebuild` | backend/internal/detail/detail.go:288-303 | the next list replaces exactly the fetched segments, in place, and counts the cuts |
| `Segments.RoundSpends` | backend/internal/detail/detail.go:259-303 | the calls, cuts and short segments of a round, read along the list, are those of the fetches it adds to the run |
| `CollectLaws.InitialTiles` | backend/internal/detail/detail.go:123-140 | the initial segments tile the window of every target and none crosses midnight |
| `CollectLaws.RoundKeepsTiling` | backend/internal/detail/detail.go:288-303 | a round of bisections and fills keeps the tiling |
| `CollectLaws.RoundFills` | backend/internal/detail/detail.go:288-303 | a finished segment holds the rows of one of the fetches made, of that very segment, and that fetch was not short unless counted |
| `CollectLaws.RoundShrinks` | backend/internal/detail/detail.go:241-304 | the sum of 2*length-1 over unfinished segments falls by at least one per fetch |
| `CollectRows.TiledRows` | backend/internal/detail/detail.go:236-253 | tiling segments with exact rows emit a prefix of the export, and all of it when none is left |
| `CollectLoop.EmitDone` | backend/internal/detail/detail.go:242-252 | emits the finished head of the list, in order, up to the row limit or a failed write |
| `CollectLoop.ProbeRound` | backend/internal/detail/detail.go:259-303 | one round is the round function, and the counters show its fetches and cuts; or it fails with the first fault among the fetches of the run |
| `CollectLoop.Collect` | backend/internal/detail/detail.go:237-306 | terminates; the work list and the fetches made are those of the rounds it went through, the counters show exactly these fetches (calls, short segments, cuts) and the emissions, the store holds what was emitted; the segments tile the window; and it stopped at its round, fetch or emission for the reason it gives |
| `CollectTheorems.EmitsOrderedWindow` | backend/internal/detail/detail.go:236-306 | prefix safety: with true totals and nothing counted as short, whatever stops the run, the emitted rows are a prefix of the ordered window, at most the row limit |
| `CollectTheorems.FaithfulRunSucceeds` | backend/internal/detail/detail.go:236-306 | with an upstream that serves a static log, in pages of any length, and fails no page three times in a row, a run succeeds iff the window fits the row limit, and then equals the bisect-or-fetch rows, whatever cap and concurrency |
| `CollectTheorems.BisectAllIsWindows` | backend/internal/detail/detail.go:180-182 | bisect-or-fetch at any cap is the plain ordered select of every target |
| `CollectTheorems.RequestsBounded` | backend/internal/detail/detail.go:180-212 | at any time of any run against a faithful upstream, however it ends: at most 17 * (R/(cap+1)) bisections, and the fetches made have cost at most 2 calls per bisection plus one per day segment and full page |
| `CollectTheorems.CompleteRunCost` | backend/internal/detail/detail.go:180-212 | a run that has finished every segment has made one call per bisection and per page, and exactly the bisections that the row counts ask for |
| `CollectTheorems.TilesMeet` | backend/internal/detail/detail.go:123-140 | segments of a tiling lie within days, meet without gap or overlap, and at the end of a window the next target's begins |
| `RequestBound.CutsBounded` | backend/internal/detail/detail.go:180-182 | a window of at most 2^k seconds with R rows is bisected at most k * (R/(cap+1)) times |
| `RequestBound.CallsBounded` | backend/internal/detail/detail.go:180-212 | upstream calls for a window are at most 2 * cuts + 1 + R/100 |
| `RequestBound.RoundPays` | backend/internal/detail/detail.go:267-303 | every round pays its calls and cuts out of the budget left |
| `Watermark.MarkKeepsSound` | backend/internal/detail/sync.go:69-80 | raising a watermark after a complete fetch of the planned window keeps every promise: the overlap closes the gap, the settle rule keeps fresh days open |
| `Watermark.PlanIsExact` | backend/internal/detail/sync.go:55-83 | the plan fetches a day iff its watermark is before its last second, and counts all others |
| `Watermark.PlanSchedules` | backend/internal/detail/sync.go:66-81 | planned days increase and start where their watermark, minus the overlap, demands |
| `Watermark.PlanStarts` | backend/internal/detail/sync.go:66-81 | a day synced in part is fetched again from 300 seconds before its watermark on, any other one from its first second on, to its last second or the end of the window |
| `Watermark.UnknownDayIsFetchedWhole` | backend/internal/detail/sync.go:69-77 | a day without watermark is planned from its first second iff it starts after the epoch |
| `Watermark.PruneKeepsSound` | backend/internal/detail/local.go:202-217 | a completed prune at a day boundary keeps every promise |
| `DaySync.Plan` | backend/internal/detail/sync.go:55-83 | the planning loop computes the recursive plan of the clipped window, or reports the read error |
| `DayFetch.SettledEmitted` | backend/internal/detail/sync.go:121-128 | a complete run over a growing log, not counted as short, emits every row of its window that can no longer be late |
| `DayFetch.LimitIsReal` | backend/internal/detail/detail.go:242-245 | a run that stops at the row limit has met more rows of its window than the limit |
| `DayFetch.FaithfulDay` | backend/internal/detail/sync.go:121-124 | with a faithful upstream, failing now and then, and a working store, a day's fetch succeeds iff its window fits the row limit |
| `DaySync.FetchDay` | backend/internal/detail/sync.go:119-136 | marks the day iff it was fetched completely with nothing counted as short, up to where it was fetched, or 300 seconds before its end when it was fetched to its end less than 300 seconds after it; otherwise says which cause its own run met, and where; keeps the store sound; against a prompt upstream it makes no more calls than the day may cost |
| `DaySync.Sync` | backend/internal/detail/sync.go:103-141 | what it does to the store is a legal ledger history without deletions, so it keeps the store sound whatever fails; every fault goes back to its cause at the day reached, and no day is fetched once the context is done; only short days are reported incomplete; faultless, it succeeds iff every planned day fits the row limit; planned again at once, its window has only days that are not over for 300 seconds, fetched from at most 600 seconds before their end on |
| `DaySync.ReplanIsFresh` | backend/internal/detail/sync.go:66-81 | after a sync without incomplete days, planning its window again leaves such days only |
| `DaySync.DayReplays` | backend/internal/detail/sync.go:115-139 | one day of the sync, marked or not, is two steps of the ledger |
| `SyncLedger.StepIsExact` | backend/internal/detail/sync.go:101-141 | in a safe state, a step of a sync or of a prune beside it leads to a safe state iff it is harmless: it neither comes to count on rows that a prune deletes, nor begins to delete rows that a pending day counts on, nor fails after deleting a promised row |
| `SyncLedger.HistoryIsSound` | backend/internal/detail/sync.go:101-141 | after any history of harmless steps of syncs that succeed, fail, abort or come up short and of prunes, statement by statement, every watermark keeps its promise, but for those that a prune under way will delete |
| `SyncLedger.CarefulHistoryIsSound` | backend/internal/api/detailsync.go:145-152 | in particular when syncs and prunes keep out of each other's days and no prune fails |
| `SyncLedger.SafeIsExact` | backend/internal/detail/sync.go:101-141 | a state is safe iff every quiet way to go on, completing the sync and the prune under way, keeps every promise |
| `SyncLedger.HarmIsExact` | backend/internal/detail/local.go:202-217 | from a safe state, every quiet way to go on after any step of a sync or a prune keeps every promise iff the step is harmless |
| `SyncLedger.WholePruneIs` | backend/internal/detail/local.go:202-217 | the steps of a prune that nothing interrupts keep exactly the rows and watermarks from the cut-off on |
| `SyncLedger.PruneDuringSync` | backend/internal/api/detailsync.go:145-152 | for every log and every safe state in which the first pending day is fetched and will promise some row, a prune before the watermark update keeps the store sound iff its cut-off is not after that day |
| `SyncLedger.LatePrune` | backend/internal/api/detailsync.go:145-152 | such a history exists: from an empty store, two steps of a first sync, the prune and the update |
| `SyncLedger.SyncDuringPrune` | backend/internal/detail/local.go:202-217 | a legal history from the empty store in which a sync that begins between the deletion of the rows and that of the watermarks leaves a day marked complete without its row |
| `SyncLedger.FailedPruneIsHalfPrune` | backend/internal/detail/local.go:202-217 | whatever a failed prune leaves is the store without some rows before the cut-off |
| `SyncLedger.HalfPruneIsSound` | backend/internal/detail/local.go:202-217 | a sound store stays sound under the loss of rows iff no watermark promises any of them |
| `SyncLedger.HalfPruneOfAll` | backend/internal/detail/local.go:202-217 | when all old rows go and no watermark does, the store stays sound iff no row before the cut-off is promised |
| `SyncLedger.HalfPruneForEveryStore` | backend/internal/detail/local.go:202-217 | with only the watermarks in view, that is so for every store and log iff they promise nothing before the cut-off |
| `SyncLedger.LateHalfPrune` | backend/internal/detail/local.go:202-217 | such a history exists: one day synced from an empty store, then a prune that deletes its row and fails |
| `LocalStream.Count` | backend/internal/detail/local.go:135-140 | the number of rows of the range and users |
| `LocalStream.CursorMoves` | backend/internal/detail/local.go:156-157 | the rows behind a cursor at row i are the rows after i, also when many share a second |
| `LocalStream.SelectPage` | backend/internal/detail/local.go:156-161 | a page is the first rows, in order, behind the cursor |
| `LocalStream.Stream` | backend/internal/detail/local.go:143-199 | for every page size the scan terminates and hands over the plain ordered select, or a prefix of it when it stops early; it is done only after one query per full page and one more, all of which succeeded under a live context |
| `Xlsx.ClampPerFile` | backend/internal/detail/xlsx.go:37-48 | the default for a number that is not positive, and otherwise the nearest number between 1,000 and 1,000,000 |
| `Xlsx.PartPathsDiffer` | backend/internal/detail/xlsx.go:103-103 | temporary names differ, also beyond 999 parts |
| `Xlsx.FinalNamesDiffer` | backend/internal/detail/xlsx.go:153-158 | final names of a multi-part export differ |
| `Xlsx.FinalNameNumbers` | backend/internal/detail/xlsx.go:153-158 | a file alone has the plain name; of several, file i carries the number i + 1 between two fixed parts |
| `Xlsx.RenameKeeps` | backend/internal/detail/xlsx.go:153-163 | a rename moves one part and never overwrites another |
| `Xlsx.ChunksPartition` | backend/internal/detail/xlsx.go:125-141 | files concatenate to the rows, all but the last are full, and there are max(1, ceil(N/perFile)) |
| `Xlsx.Writer.Add` | backend/internal/detail/xlsx.go:125-141 | appends one row, rotating when the file is full |
| `Xlsx.Writer.Rotate` | backend/internal/detail/xlsx.go:96-115 | saves the open sheet under the next part name and keeps the earlier parts |
| `Xlsx.Writer.Close` | backend/internal/detail/xlsx.go:144-165 | delivers exactly the chunks of all rows added, under their final names, and succeeds only if saving and every rename did |
| `Xlsx.DeliveredFiles` | backend/internal/detail/xlsx.go:96-165 | delivered files hold the rows in order, within a worksheet, under distinct names that carry their numbers |
| `Export.SyncedRangeIsComplete` | backend/internal/detail/sync.go:115-140 | a full sync without incomplete days, 300 seconds after the range, marks every day complete |
| `Export.CompleteRangeIsExact` | backend/internal/api/detail.go:251-252 | a sound store whose days are complete holds exactly the upstream rows of the range |
| `Export.WindowIsMatched` | backend/internal/detail/local.go:123-140 | the rows of an export are those of the range and of a named user, which is what upstream matches for these users one by one |
| `Export.RunDetail` | backend/internal/api/detail.go:225-295 | the files hold exactly the local rows of the range and users; after a complete sync their concatenation lists the upstream rows, each once, in order; an export that is not delivered goes back to its cause; a smooth one is delivered iff every planned day and the selection fit the row limit |
| `Export.ExportedFilesAreUpstreamRows` | backend/internal/api/detail.go:225-295 | files delivered from a store that holds exactly the upstream rows concatenate to these rows, each once, in order, under distinct names |
| `Throttling.Throttle.SetRate` | backend/internal/detail/throttle.go:52-69 | a new rate takes effect at once: the interval is a minute divided by it; the same rate changes nothing |
| `Throttling.Throttle.TryGrant` | backend/internal/detail/throttle.go:74-86 | grants iff slot and pause have passed, taking the slot for the interval in force, and otherwise says how long to sleep |
| `Throttling.Throttle.Hit` | backend/internal/detail/throttle.go:97-119 | outside a pause it starts one as long as upstream asks, from 1 to 180 seconds, or else of 15 seconds doubled with every 429 since the last success, up to 180, and doubles the interval; inside a pause it only counts |
| `Throttling.Throttle.OK` | backend/internal/detail/throttle.go:122-132 | speeds up after twenty successes, not beyond the base rate |
| `Throttling.HistoryStaysSane` | backend/internal/detail/throttle.go:52-132 | after any history base <= cur <= max, and pause, slot and hits never move back |
| `Throttling.PausesBackOff` | backend/internal/detail/throttle.go:95-112 | pauses start at 15 s and double up to 3 min; an upstream answer within the limits is followed |
| `Throttling.BurstSlowsOnce` | backend/internal/detail/throttle.go:95-119 | a burst of 429s inside a pause slows down and backs off once |
| `ThrottleLaws.NoGrantInPause` | backend/internal/detail/throttle.go:72-93 | nothing is granted before a pause ends, whatever happens in between |
| `ThrottleLaws.NoGrantInInterval` | backend/internal/detail/throttle.go:72-93 | after a grant nothing is granted for the interval in force, slowed down as it may be |
| `ThrottleLaws.StreakRestarts` | backend/internal/detail/throttle.go:121-132 | after a 429 nineteen successes change nothing, and the twentieth shortens the interval by a fifth |
| `ThrottleLaws.SuccessResetsPause` | backend/internal/detail/throttle.go:95-132 | after a success the next pause is 15 seconds again |
| `ThrottleLaws.GrantsSpaced` | backend/internal/detail/throttle.go:72-93 | at a fixed rate consecutive grants are at least the base interval apart in every history |
| `ThrottleLaws.SpacedSpan` | backend/internal/detail/throttle.go:72-93 | n grants span at least (n-1) base intervals |
| `ThrottleLaws.MinuteBound` | backend/internal/api/settings.go:38-38 | for rates 5 to 300, less than a minute holds at most N+1 grants, and N when N divides the minute |
| `ThrottleLaws.PerMinutePromise` | backend/internal/detail/throttle.go:44-62 | "N per minute" holds in every history iff N divides the minute |
| `ThrottleLaws.Recovers` | backend/internal/detail/throttle.go:121-132 | 20*m successes bring the interval to the base, or to at most (8/10)^m of what it was |
| `Wrapped.Wait` | backend/internal/detail/throttle.go:72-93 | a granted wait takes its slot no earlier than the previous one allows; it ends at the first moment at which the context is done |
| `Wrapped.Wrap` | backend/internal/detail/throttle.go:151-178 | at most RateGiveUp/base + 3 calls; all but the last were 429s; it gives up at a 429 iff that one is looked at more than RateGiveUp after the first; otherwise the last call or a done context decides the outcome; and what it reports to the throttle is each 429, with the pause that upstream asks for, and the success |
| `SingleFlight.Service.Begin` | backend/internal/usage/service.go:129-170 | the first block of `Get` decides and updates the tables as the step functions say |
| `SingleFlight.Service.FindOldest` | backend/internal/usage/service.go:182-188 | the scan finds an entry that is at least as old as every other |
| `SingleFlight.Service.Complete` | backend/internal/usage/service.go:177-195 | a failed build leaves the cache alone; a successful one is cached, unless the cache had to give up an oldest of more than 50 entries and it was this one; the result is published and the key unregistered |
| `SingleFlight.RefusedExactlyBeforeOpening` | backend/internal/usage/service.go:130-151 | a forced refresh is refused iff its key is cached and its opening instant has not come |
| `SingleFlight.ShownInstantIsRight` | backend/internal/usage/service.go:140-147 | the millisecond shown with a cached answer, refused or not, brackets the instant at which refreshes open |
| `SingleFlight.ServedWhileYoung` | backend/internal/usage/service.go:140-147 | an ordinary request is answered from the cache iff the entry is younger than its lifetime |
| `SingleFlight.FinishKeepsCacheSmall` | backend/internal/usage/service.go:178-191 | at most 50 entries remain, and only an oldest one is dropped |
| `FlightSystem.StepKeeps` | backend/internal/usage/service.go:122-199 | every step of every thread keeps the single-flight invariant |
| `FlightSystem.OneBuilderPerKey` | backend/internal/usage/service.go:122-199 | in every interleaving one builder per key, registered exactly while it runs, and no waiter is left behind |
| `FlightSystem.SharedResultsAreFresh` | backend/internal/usage/service.go:154-163 | a result taken over was produced for that key by a build that finished after the wait began |
| `FlightSystem.WaitersTakeResults` | backend/internal/usage/service.go:154-168 | a waiter takes the result that is there, and else looks again as an ordinary call |
| `FlightSystem.ResultsWillExpire` | backend/internal/usage/service.go:196-196 | every result left for waiters has a pending timer that deletes it |
| `FlightSystem.ForcedRefreshesApart` | backend/internal/usage/service.go:130-151 | a forced refresh that finds its key cached comes 2 minutes after any other and 10 after its entry |
| `FlightSystem.CachedAnswersAreYoung` | backend/internal/usage/service.go:123-147 | over all histories, a cached answer that was not a refusal is younger than 6 hours, than 15 minutes when the period ends less than a day before the call, and was built for that key |
| `FlightSystem.AnswersAlwaysFit` | backend/internal/usage/service.go:122-199 | over all histories, every answer is a finished build of the key asked for and tells whether it succeeded |
| `FlightSystem.OnlySuccessesAreCached` | backend/internal/usage/service.go:177-191 | over all histories, every cached entry and every cached answer is a build that succeeded |
| `FlightSystem.OrdinaryCallsAreServed` | backend/internal/usage/service.go:122-147 | an ordinary call is answered from the cache iff the entry is younger than 15 minutes, or than 6 hours when the period ended more than a day before |
| `FlightSystem.CooldownHoldsExactlyForCached` | backend/internal/usage/service.go:130-151 | after any history with a forced refresh that was let through: a call that asks for another one within 2 minutes is held back until they are over iff its key is cached by then |
| `FlightSystem.RefusedExactly` | backend/internal/usage/service.go:130-151 | after any history a forced refresh is refused iff its key is cached and its entry is less than 10 minutes old, or the last forced refresh let through is less than 2 minutes ago |
| `FlightSystem.ForcedAtMostOnce` | backend/internal/usage/service.go:149-168 | a call is let through as a forced refresh at most once |
| `FlightSystem.UncachedRefreshesHappen` | backend/internal/usage/service.go:17-20 | four events from a fresh service lead to two forced refreshes that build at the same instant |
| `FlightSystem.Perform` | backend/internal/usage/service.go:122-199 | the service object takes every step of the system: its tables and answers are the system's |
| `ExportJob.DetailJob.Start` | backend/internal/api/detail.go:144-164 | starts unless running, resetting the job and returning the stale directory |
| `ExportJob.DetailJob.Finish` | backend/internal/api/detail.go:180-199 | keeps all files and the directory of a finished run; a broken one is canceled iff the job was or its context is done |
| `ExportJob.DetailJob.Expire` | backend/internal/api/detail.go:213-221 | removes the directory only of the job it was set for |
| `ExportJob.DetailJob.Cancel` | backend/internal/api/detail.go:350-361 | cancels iff a job runs |
| `ExportJob.StepKeeps` | backend/internal/api/detail.go:144-221 | every step of jobs, timers and background sync keeps the invariant |
| `ExportJob.GateIsExclusive` | backend/internal/api/detailsync.go:21-49 | in every reachable state at most one task holds the gate |
| `ExportJob.FilesExactlyWhenDone` | backend/internal/api/detail.go:144-221 | files and a directory are present iff the phase is done; a job runs iff it is syncing or writing |
| `ExportJob.EndsAsItsRun` | backend/internal/api/detail.go:166-199 | over all histories, a running job is writing iff its sync is over; a done job has the files that its own run wrote, all of them, in the directory that its own run made; a broken run ends canceled iff the job was canceled while it ran or its context was done, and failed otherwise |
| `ExportJob.FilesWillExpire` | backend/internal/api/detail.go:200-221 | as long as a job's files are there, its timer is pending |
| `ExportJob.NothingLeaks` | backend/internal/api/detail.go:162-220 | when nothing runs, the disk holds the finished job's directory and nothing else |
| `ExportJob.OldTimerIsHarmless` | backend/internal/api/detail.go:206-221 | an old job's timer changes neither a newer job nor the disk |
| `ExportJob.OwnTimerExpires` | backend/internal/api/detail.go:206-221 | a job's own timer deletes its files and marks it expired |
| `ExportJob.Perform` | backend/internal/api/detail.go:144-221 | the job object takes every step of the system: its fields are the system's, and it hands out the directories that the system gives up |
| `Aggregation.SumDrop` | backend/internal/usage/summary.go:203-218 | the sum over a map does not depend on the order of its keys |
| `Aggregation.PutAllAdds` | backend/internal/usage/summary.go:45-78 | total, days, months and models grow by exactly the counted rows |
| `Aggregation.CountsByDay` | backend/internal/usage/summary.go:46-53 | the counted rows are those that name no user or this one, on the days of the period |
| `Aggregation.PutAllBalanced` | backend/internal/usage/summary.go:45-78 | models, days and months keep splitting the total, within the period, in any calendar whose months follow the days |
| `Aggregation.UserAgg.AddRows` | backend/internal/usage/summary.go:45-78 | the loop adds to total, each day, each month and each model exactly the counted rows of that slice |
| `Summaries.ListDays` | backend/internal/usage/period.go:89-96 | the days of the period, each once, in order |
| `Summaries.ListMonths` | backend/internal/usage/period.go:98-107 | the months from the first day's to the last day's, each once, in order |
| `Summaries.Merge` | backend/internal/usage/summary.go:203-218 | adding one map onto another in any key order gives the key-by-key sum |
| `Summaries.ModelsConserve` | backend/internal/usage/summary.go:208-218 | the models split the site's total |
| `Summaries.DaysConserve` | backend/internal/usage/summary.go:203-207 | so does the day list: the guard on unknown days drops nothing |
| `Summaries.MonthsConserve` | backend/internal/usage/summary.go:242-246 | each user's month list adds up to the user's quota |
| `Summaries.GroupsConserve` | backend/internal/usage/summary.go:219-231 | the groups split the total iff no user is below zero |
| `Summaries.GroupsAt` | backend/internal/usage/summary.go:219-231 | each group is the sum of its users above zero; users without a group are "default" |
| `Summaries.ActiveCounts` | backend/internal/usage/summary.go:241-270 | the active users are those with quota or calls |
| `Summaries.RankingIsRanked` | backend/internal/usage/summary.go:233-239 | the user list is a permutation, by quota descending and then by id |
| `Summaries.TopModels` | backend/internal/usage/summary.go:247-262 | the five largest models, or all of them when there are fewer; none left out is larger |
| `Summaries.SharesAddUp` | backend/internal/usage/summary.go:263-266 | the users' shares add up to one unless nothing was spent in all |
| `Summaries.ShareIsPart` | backend/internal/usage/summary.go:263-266 | a user's share times the total is the user's quota, and zero when nothing was spent |
| `Summaries.ReconciledWithin` | backend/internal/usage/summary.go:81-92 | agreement means a difference of at most 1000 or a thousandth |
| `Summaries.OverPermute` | backend/internal/usage/summary.go:233-242 | sums over the users are the same in every order of the list |
| `Summaries.Assemble` | backend/internal/usage/summary.go:189-302 | for any users: total, active users, comparison with the site, each day, model and group as summed over the users, and the ranked permutation with each user's months, largest models and share |
| `Summaries.BalancedConserves` | backend/internal/usage/summary.go:189-302 | when the users are balanced, days and models add up to the total and months to the users' quotas |
| `SummaryBuild.FallbackKeepsBreakdown` | backend/internal/usage/service.go:102-114 | after the fallback, days and models still add up to what the rows sum to |
| `SummaryBuild.CorrectedAt` | backend/internal/usage/service.go:102-114 | the fallback replaces the quotas of the users whose statistics are known, and nothing else |
| `SummaryBuild.ReachedGoalBreaksSums` | backend/internal/usage/service.go:102-114 | whenever the fallback is taken and its total agrees with the site, neither days nor models add up to that total |
| `SummaryBuild.GoalIsReached` | backend/internal/usage/service.go:102-114 | such inputs exist: one user without rows whose log statistics show what the site counts, more than 1000 |
| `SummaryBuild.Build` | backend/internal/usage/service.go:68-115 | days and models are those of the rows, and so are each user's months and models; without the fallback everything adds up; a summary that reports agreement with the site adds up iff the fallback was not taken |

## Left out

- The frontend, HTTP handlers, authentication, settings validation, audit records and deployment.
- The upstream's HTTP client: a fetch is an oracle. A call that hangs or panics is not modelled.
- SQL, index hints, string truncation and collation: a table is a map, and a username filter compares strings exactly. `rows_cnt`, `Stats` and the columns that no decision depends on (one `data` value stands for them) are not modelled.
- Sheets are sequences of rows; styles, headers, cell values and file sizes are not modelled. Creating, writing, saving and renaming succeed or fail as the environment says.
- Calendar dates and labels: a day is its number, and `YYYY-MM-DD` strings that are compared in SQL order are compared as numbers.
- Warnings are only counted, and status callbacks, phases for display and elapsed times are not modelled.
- `Missing` and the `Count` of the syncer only return parts of the plan, and `RecentRange` is one date computation.
- Several clock readings within one locked block are one reading, and so is the unlocked read of `lastAny` that follows the first block of `Get`.
- Liveness: that a waiting goroutine gets the gate or a slot, and that `autoSync.stop` reaches a background sync that has not yet registered its cancel function.
- Fresh job ids: two jobs started in the same nanosecond would share an id; the model hands out new ids.
- Money, currency conversion, averages, users per model and group, first and last use, and the order of the model and group lists in the summary. Quotas are integers, shares are exact fractions, and a month is the number that a calendar assigns to a day.
- `BuildDetail` and `FetchDetailRows`, PDF and spreadsheet layout of the billing pages.
- CollectLoop.Collect: the parallel fetches of a round are numbered in list order; the oracle's freedom per fetch and call covers their interleavings, but not a data race between them. The counter of upstream calls is a ghost field of the model; the code keeps none.
- SyncLedger.HistoryIsSound: one prune at a time, as the scheduler's single goroutine runs them; a batch is any set of old rows, whatever its size.
- DaySync.Sync: takes its window at day boundaries, as its own comment demands, and one reading of the clock, as the parameter is in the code.
- Export.RunDetail: the sync, the count and the scan are modelled in sequence on a store that no prune or other writer changes meanwhile; the directory and the gate are part of ExportJob.
- LocalStream.Stream: the table does not change during the scan; a failing row read ends it like a failing query.
- Wrapped.Wrap: executions are cut off after a number of moments, so its statement is about every finite prefix, and termination without cancellation is not claimed.
- Summaries.Assemble: works on immutable views of the user aggregates, which the code only reads; the stable sort is an insertion sort.
- SummaryBuild.Build: the users' rows are added one user after another; a user whose rows could not be fetched is one with no rows.
